/** Cells of the octree (core/Loc.h) and GetLocsInView of core/OctTileSelection.cpp, which chooses the cells
    to draw. How fine a cell should be and whether it can be seen are open. */
module TileSelection {
  import opened Powers

  datatype Loc = Loc(x: int, y: int, z: int, l: int)

  /** Loc.h, lines 126-129; the shift of a negative coordinate rounds down, as this division does. */
  function Parent(p: Loc): Loc
  {
    Loc(p.x / 2, p.y / 2, p.z / 2, p.l - 1)
  }

  /** Lines 102-115. */
  function Children(p: Loc): (cs: seq<Loc>)
    ensures |cs| == 8 && forall i :: 0 <= i < 8 ==> cs[i].l == p.l + 1
  {
    [Loc(p.x * 2, p.y * 2, p.z * 2, p.l + 1), Loc(p.x * 2, p.y * 2, p.z * 2 + 1, p.l + 1),
     Loc(p.x * 2, p.y * 2 + 1, p.z * 2, p.l + 1), Loc(p.x * 2, p.y * 2 + 1, p.z * 2 + 1, p.l + 1),
     Loc(p.x * 2 + 1, p.y * 2, p.z * 2, p.l + 1), Loc(p.x * 2 + 1, p.y * 2, p.z * 2 + 1, p.l + 1),
     Loc(p.x * 2 + 1, p.y * 2 + 1, p.z * 2, p.l + 1), Loc(p.x * 2 + 1, p.y * 2 + 1, p.z * 2 + 1, p.l + 1)]
  }

  /** The cells with that parent, each once. */
  lemma ChildrenAre(p: Loc, c: Loc)
    ensures c in Children(p) <==> Parent(c) == p
  {
  }

  lemma ChildrenDistinct(p: Loc, i: nat, j: nat)
    requires i < j < 8
    ensures Children(p)[i] != Children(p)[j] && Parent(Children(p)[i]) == p == Parent(Children(p)[j])
  {
  }

  /** The cell d levels up. */
  function Up(q: Loc, d: nat): (r: Loc)
    ensures r.l == q.l - d
    decreases d
  {
    if d == 0 then q else Up(Parent(q), d - 1)
  }

  /** ParentAtLevel, lines 131-135: d shifts of one bit are one shift of d bits. */
  lemma {:induction false} UpShifts(q: Loc, d: nat)
    ensures Up(q, d) == Loc(q.x / Pow2(d), q.y / Pow2(d), q.z / Pow2(d), q.l - d)
    decreases d
  {
    if d > 0 {
      UpShifts(Parent(q), d - 1);
      ShiftOnce(q.x, Pow2(d - 1));
      ShiftOnce(q.y, Pow2(d - 1));
      ShiftOnce(q.z, Pow2(d - 1));
    }
  }

  lemma ShiftOnce(v: int, p: nat)
    requires p >= 1
    ensures v / 2 / p == v / (2 * p)
  {
    var h, q := v / 2, v / 2 / p;
    var r := h - p * q;
    assert v == 2 * (p * q + r) + v % 2;
    assert 2 * (p * q) == (2 * p) * q;
    FloorUnique(v, 2 * p, q, 2 * r + v % 2);
  }

  lemma FloorUnique(v: int, p: nat, q: int, r: int)
    requires p >= 1 && 0 <= r < p && v == p * q + r
    ensures v / p == q
  {
    var q', r' := v / p, v % p;
    assert v == p * q' + r';
    if q' > q {
      FloorGap(p, q, q');
    } else if q' < q {
      FloorGap(p, q', q);
    }
  }

  lemma FloorGap(p: nat, a: int, b: int)
    requires a < b
    ensures p * b >= p * a + p
  {
    var d := b - a - 1;
    assert p * d >= 0;
    assert p * (a + 1 + d) == p * a + p + p * d;
  }

  lemma {:induction false} UpAgain(q: Loc, a: nat, b: nat)
    ensures Up(q, a + b) == Up(Up(q, a), b)
    decreases a
  {
    if a > 0 {
      UpAgain(Parent(q), a - 1, b);
    }
  }

  /** q is a or one of the cells that a is divided into. */
  predicate Under(a: Loc, q: Loc)
  {
    a.l <= q.l && Up(q, q.l - a.l) == a
  }

  predicate Overlap(a: Loc, b: Loc)
  {
    Under(a, b) || Under(b, a)
  }

  lemma UnderTrans(a: Loc, b: Loc, q: Loc)
    requires Under(a, b) && Under(b, q)
    ensures Under(a, q)
  {
    UpAgain(q, q.l - b.l, b.l - a.l);
  }

  /** Of two cells that q is in, one is in the other. */
  lemma Nested(a: Loc, b: Loc, q: Loc)
    requires Under(a, q) && Under(b, q) && a.l <= b.l
    ensures Under(a, b)
  {
    UpAgain(q, q.l - b.l, b.l - a.l);
  }

  lemma ChildUnder(p: Loc, c: Loc)
    requires Parent(c) == p
    ensures Under(p, c) && Under(p, p)
  {
    assert Up(c, 1) == Up(Parent(c), 0);
  }

  /** Cells in different children do not overlap. */
  lemma SiblingsApart(c: Loc, d: Loc, a: Loc, b: Loc)
    requires c.l == d.l && c != d && Under(c, a) && Under(d, b)
    ensures !Overlap(a, b)
  {
    if Under(a, b) {
      UnderTrans(c, a, b);
      Nested(c, d, b);
    } else if Under(b, a) {
      UnderTrans(d, b, a);
      Nested(c, d, a);
    }
  }

  /** TargetLodForLoc, the tests of lines 217-220, and maxlod. */
  datatype View = View(target: Loc -> int, visible: Loc -> bool, maxlod: int)

  function Depth(v: View, cur: Loc): nat
  {
    if cur.l < v.maxlod then v.maxlod - cur.l else 0
  }

  /** Lines 193-194: a cell finer than wanted, below one that reaches behind the camera. */
  predicate Dropped(v: View, cur: Loc, behind: bool)
  {
    v.target(cur) >= 0 && behind && cur.l > v.target(cur)
  }

  /** Lines 196-206: fine enough, or as fine as can be. */
  predicate Stops(v: View, cur: Loc)
  {
    if v.target(cur) >= 0 then cur.l >= v.target(cur) else cur.l == v.maxlod
  }

  /** What a call appends. */
  function Selected(v: View, cur: Loc, behind: bool): seq<Loc>
    decreases Depth(v, cur), 0, 0
  {
    if Dropped(v, cur, behind) then []
    else if Stops(v, cur) then [cur]
    else if cur.l >= v.maxlod then []
    else
      var cs, b := Children(cur), v.target(cur) < 0;
      var found := Found(v, cs, b, Depth(v, cur) - 1);
      if found == [] then [] else found + Fill(v, cs, b, Depth(v, cur) - 1)
  }

  /** What the calls for the children append. */
  function Found(v: View, cs: seq<Loc>, behind: bool, n: nat): seq<Loc>
    requires forall i :: 0 <= i < |cs| ==> Depth(v, cs[i]) == n
    decreases n, 1, |cs|
  {
    if cs == [] then []
    else
      var c := cs[|cs| - 1];
      Found(v, cs[..|cs| - 1], behind, n) + if v.visible(c) then Selected(v, c, behind) else []
  }

  /** fillLocs: the children in view for which nothing was appended. */
  function Fill(v: View, cs: seq<Loc>, behind: bool, n: nat): seq<Loc>
    requires forall i :: 0 <= i < |cs| ==> Depth(v, cs[i]) == n
    decreases n, 1, |cs|
  {
    if cs == [] then []
    else
      var c := cs[|cs| - 1];
      Fill(v, cs[..|cs| - 1], behind, n) + if v.visible(c) && Selected(v, c, behind) == [] then [c] else []
  }

  lemma DepthOf(v: View, cur: Loc)
    requires cur.l < v.maxlod
    ensures forall i :: 0 <= i < 8 ==> Depth(v, Children(cur)[i]) == Depth(v, cur) - 1
  {
    hide Children;
  }

  /** GetLocsInView, lines 182-235. */
  method GetLocsInView(v: View, locs0: seq<Loc>, cur: Loc, behind: bool) returns (locs: seq<Loc>, ok: bool)
    ensures locs == locs0 + Selected(v, cur, behind) && (ok <==> exists a :: Taken(v, cur, behind, a))
    ensures Exactly(v, cur, behind, Selected(v, cur, behind))
    decreases Depth(v, cur)
  {
    hide Children, Found, Fill, Exactly, Taken;
    NothingSelected(v, cur, behind);
    MakeExactly(v, cur, behind);
    var targetLod: int := v.target(cur);
    if targetLod >= 0 {
      if behind && cur.l > targetLod {
        return locs0, false;
      }
      if cur.l >= targetLod {
        return locs0 + [cur], true;
      }
    }
    if targetLod < 0 && cur.l == v.maxlod {
      return locs0 + [cur], true;
    }
    locs := locs0;
    var hasChildren := false;
    if cur.l < v.maxlod {
      var fillLocs: seq<Loc> := [];
      var children: seq<Loc> := Children(cur);
      ghost var n: nat := Depth(v, cur) - 1;
      DepthOf(v, cur);
      NoneFound(v, targetLod < 0, n);
      for i := 0 to 8
        invariant locs == locs0 + Found(v, children[..i], targetLod < 0, n)
        invariant fillLocs == Fill(v, children[..i], targetLod < 0, n)
        invariant hasChildren <==> Found(v, children[..i], targetLod < 0, n) != []
      {
        FoundNext(v, children, targetLod < 0, n, i);
        NothingSelected(v, children[i], targetLod < 0);
        if v.visible(children[i]) {
          var childExists: bool;
          locs, childExists := GetLocsInView(v, locs, children[i], targetLod < 0);
          hasChildren := hasChildren || childExists;
          if !childExists {
            fillLocs := fillLocs + [children[i]];
          }
        }
      }
      assert children[..8] == children;
      if hasChildren {
        locs := locs + fillLocs;
      }
    }
    ok := hasChildren;
  }

  lemma NoneFound(v: View, behind: bool, n: nat)
    ensures Found(v, [], behind, n) == [] && Fill(v, [], behind, n) == []
  {
  }

  lemma FoundNext(v: View, cs: seq<Loc>, behind: bool, n: nat, i: nat)
    requires i < |cs| && forall k :: 0 <= k < |cs| ==> Depth(v, cs[k]) == n
    ensures Found(v, cs[..i + 1], behind, n)
         == Found(v, cs[..i], behind, n) + if v.visible(cs[i]) then Selected(v, cs[i], behind) else []
    ensures Fill(v, cs[..i + 1], behind, n)
         == Fill(v, cs[..i], behind, n) + if v.visible(cs[i]) && Selected(v, cs[i], behind) == [] then [cs[i]] else []
  {
    assert cs[..i + 1][..i] == cs[..i];
  }

  ghost predicate Level(v: View, cs: seq<Loc>, n: nat)
  {
    forall i :: 0 <= i < |cs| ==> Depth(v, cs[i]) == n
  }

  /** Where an appended cell comes from. */
  lemma {:induction false} FoundFrom(v: View, cs: seq<Loc>, behind: bool, n: nat, k: nat) returns (i: nat, j: nat)
    requires Level(v, cs, n) && k < |Found(v, cs, behind, n)|
    ensures i < |cs| && v.visible(cs[i]) && j < |Selected(v, cs[i], behind)|
    ensures Found(v, cs, behind, n)[k] == Selected(v, cs[i], behind)[j]
    decreases |cs|
  {
    hide Selected;
    var m := |cs| - 1;
    var before := Found(v, cs[..m], behind, n);
    if k < |before| {
      i, j := FoundFrom(v, cs[..m], behind, n, k);
    } else {
      i, j := m, k - |before|;
    }
  }

  lemma {:induction false} FillFrom(v: View, cs: seq<Loc>, behind: bool, n: nat, k: nat) returns (i: nat)
    requires Level(v, cs, n) && k < |Fill(v, cs, behind, n)|
    ensures i < |cs| && v.visible(cs[i]) && Selected(v, cs[i], behind) == [] && Fill(v, cs, behind, n)[k] == cs[i]
    decreases |cs|
  {
    hide Selected;
    var m := |cs| - 1;
    if k < |Fill(v, cs[..m], behind, n)| {
      i := FillFrom(v, cs[..m], behind, n, k);
    } else {
      i := m;
    }
  }

  /** And that nothing in view gets lost. */
  lemma {:induction false} InView(v: View, cs: seq<Loc>, behind: bool, n: nat, i: nat)
    requires Level(v, cs, n) && i < |cs| && v.visible(cs[i])
    ensures forall a :: a in Selected(v, cs[i], behind) ==> a in Found(v, cs, behind, n)
    ensures Selected(v, cs[i], behind) == [] ==> cs[i] in Fill(v, cs, behind, n)
    decreases |cs|
  {
    hide Selected;
    var m := |cs| - 1;
    if i < m {
      InView(v, cs[..m], behind, n, i);
    }
  }

  /** Every appended cell is cur, or comes from one of its children. */
  lemma Splits(v: View, cur: Loc, behind: bool, k: nat) returns (fill: bool, i: nat, j: nat)
    requires k < |Selected(v, cur, behind)|
    requires !(Selected(v, cur, behind) == [cur] && Stops(v, cur))
    ensures cur.l < v.maxlod && !Stops(v, cur) && !Dropped(v, cur, behind) && i < 8 && v.visible(Children(cur)[i])
    ensures var part := Selected(v, Children(cur)[i], v.target(cur) < 0);
      if fill then part == [] && Selected(v, cur, behind)[k] == Children(cur)[i]
      else j < |part| && Selected(v, cur, behind)[k] == part[j]
  {
    hide Children, Found, Fill;
    DepthOf(v, cur);
    var cs, b, n := Children(cur), v.target(cur) < 0, Depth(v, cur) - 1;
    i, j := 0, 0;
    fill := k >= |Found(v, cs, b, n)|;
    if fill {
      i := FillFrom(v, cs, b, n, k - |Found(v, cs, b, n)|);
    } else {
      i, j := FoundFrom(v, cs, b, n, k);
    }
  }

  /** Appended cells are cells of cur. */
  lemma {:induction false} SelectedInside(v: View, cur: Loc, behind: bool, k: nat)
    requires k < |Selected(v, cur, behind)|
    ensures Under(cur, Selected(v, cur, behind)[k])
    decreases Depth(v, cur)
  {
    hide Selected, Children, Under, Stops, Dropped;
    if Selected(v, cur, behind) == [cur] && Stops(v, cur) {
      SelfUnder(cur);
    } else {
      var fill, i, j := Splits(v, cur, behind, k);
      var c := Children(cur)[i];
      ChildrenAre(cur, c);
      ChildUnder(cur, c);
      DepthOf(v, cur);
      if !fill {
        SelectedInside(v, c, v.target(cur) < 0, j);
        UnderTrans(cur, c, Selected(v, cur, behind)[k]);
      }
    }
  }

  lemma SelfUnder(a: Loc)
    ensures Under(a, a)
  {
  }

  /** No two of them overlap. */
  ghost predicate Apart(s: seq<Loc>)
  {
    forall i, j :: 0 <= i < j < |s| ==> !Overlap(s[i], s[j])
  }

  lemma ApartConcat(s: seq<Loc>, t: seq<Loc>)
    requires Apart(s) && Apart(t) && forall i, j :: 0 <= i < |s| && 0 <= j < |t| ==> !Overlap(s[i], t[j])
    ensures Apart(s + t)
  {
    hide Overlap;
  }

  /** Different cells of one level. */
  predicate Siblings(cs: seq<Loc>)
  {
    forall i, j :: 0 <= i < j < |cs| ==> cs[i].l == cs[j].l && cs[i] != cs[j]
  }

  lemma {:induction false} FoundApart(v: View, cs: seq<Loc>, behind: bool, n: nat)
    requires Level(v, cs, n) && Siblings(cs) && forall i :: 0 <= i < |cs| ==> Apart(Selected(v, cs[i], behind))
    ensures Apart(Found(v, cs, behind, n))
    decreases |cs|
  {
    hide Selected, Overlap, Under;
    if cs != [] {
      var m := |cs| - 1;
      var s, c := Found(v, cs[..m], behind, n), cs[m];
      FoundApart(v, cs[..m], behind, n);
      if v.visible(c) {
        var t := Selected(v, c, behind);
        forall i, j | 0 <= i < |s| && 0 <= j < |t| ensures !Overlap(s[i], t[j]) {
          var a, b := FoundFrom(v, cs[..m], behind, n, i);
          SelectedInside(v, cs[a], behind, b);
          SelectedInside(v, c, behind, j);
          SiblingsApart(cs[a], c, s[i], t[j]);
        }
        ApartConcat(s, t);
      }
    }
  }

  lemma {:induction false} FillApart(v: View, cs: seq<Loc>, behind: bool, n: nat)
    requires Level(v, cs, n) && Siblings(cs)
    ensures Apart(Fill(v, cs, behind, n))
    decreases |cs|
  {
    hide Selected, Overlap, Under;
    if cs != [] {
      var m := |cs| - 1;
      var s, c := Fill(v, cs[..m], behind, n), cs[m];
      FillApart(v, cs[..m], behind, n);
      forall i | 0 <= i < |s| ensures !Overlap(s[i], c) {
        var a := FillFrom(v, cs[..m], behind, n, i);
        SelfUnder(cs[a]);
        SelfUnder(c);
        SiblingsApart(cs[a], c, cs[a], c);
      }
      ApartConcat(s, [c]);
    }
  }

  lemma ChildSiblings(p: Loc)
    ensures Siblings(Children(p))
  {
    hide Children;
    forall i, j | 0 <= i < j < |Children(p)| ensures Children(p)[i] != Children(p)[j] {
      ChildrenDistinct(p, i, j);
    }
  }

  lemma {:induction false} SelectedApart(v: View, cur: Loc, behind: bool)
    ensures Apart(Selected(v, cur, behind))
    decreases Depth(v, cur)
  {
    hide Children, Overlap, Under, Found, Fill, Apart, Siblings;
    ApartFew(cur);
    if !Dropped(v, cur, behind) && !Stops(v, cur) && cur.l < v.maxlod {
      var cs, b, n := Children(cur), v.target(cur) < 0, Depth(v, cur) - 1;
      DepthOf(v, cur);
      ChildSiblings(cur);
      forall i | 0 <= i < |cs| ensures Apart(Selected(v, cs[i], b)) {
        SelectedApart(v, cs[i], b);
      }
      FoundApart(v, cs, b, n);
      FillApart(v, cs, b, n);
      var s, t := Found(v, cs, b, n), Fill(v, cs, b, n);
      forall i, j | 0 <= i < |s| && 0 <= j < |t| ensures !Overlap(s[i], t[j]) {
        FoundFillApart(v, cs, b, n, i, j);
      }
      ApartConcat(s, t);
    }
  }

  lemma ApartFew(a: Loc)
    ensures Apart([]) && Apart([a])
  {
  }

  lemma FoundFillApart(v: View, cs: seq<Loc>, behind: bool, n: nat, i: nat, j: nat)
    requires Level(v, cs, n) && Siblings(cs) && i < |Found(v, cs, behind, n)| && j < |Fill(v, cs, behind, n)|
    ensures !Overlap(Found(v, cs, behind, n)[i], Fill(v, cs, behind, n)[j])
  {
    hide Selected, Overlap, Under, Found, Fill;
    var a, b := FoundFrom(v, cs, behind, n, i);
    var c := FillFrom(v, cs, behind, n, j);
    SelectedInside(v, cs[a], behind, b);
    SelfUnder(cs[c]);
    SiblingsApart(cs[a], cs[c], Found(v, cs, behind, n)[i], cs[c]);
  }

  /** The cells that q is in, from below cur down to q itself, are in view. */
  ghost predicate ChainInView(v: View, cur: Loc, q: Loc)
  {
    forall d: nat :: d < q.l - cur.l ==> v.visible(Up(q, d))
  }

  /** If anything is appended, then whatever can be seen of cur is covered. */
  lemma {:induction false} SelectedCovers(v: View, cur: Loc, behind: bool, q: Loc)
    requires Selected(v, cur, behind) != [] && q.l == v.maxlod && Under(cur, q) && ChainInView(v, cur, q)
    ensures exists a :: a in Selected(v, cur, behind) && Under(a, q)
    decreases Depth(v, cur)
  {
    hide Children, Found, Fill, Up;
    if Stops(v, cur) && !Dropped(v, cur, behind) {
      assert cur in Selected(v, cur, behind);
    } else {
      var cs, b, n := Children(cur), v.target(cur) < 0, Depth(v, cur) - 1;
      DepthOf(v, cur);
      var c := Up(q, q.l - cur.l - 1);
      ChildOn(cur, q);
      ChildrenAre(cur, c);
      var i :| 0 <= i < |cs| && cs[i] == c;
      InView(v, cs, b, n, i);
      if Selected(v, c, b) != [] {
        SelectedCovers(v, c, b, q);
        var a :| a in Selected(v, c, b) && Under(a, q);
        assert a in Selected(v, cur, behind);
      } else {
        assert c in Selected(v, cur, behind);
      }
    }
  }

  /** The child of cur that q is in. */
  lemma ChildOn(cur: Loc, q: Loc)
    requires Under(cur, q) && cur.l < q.l
    ensures var c := Up(q, q.l - cur.l - 1); Parent(c) == cur && Under(c, q) && c.l == cur.l + 1
  {
    UpAgain(q, q.l - cur.l - 1, 1);
    var c := Up(q, q.l - cur.l - 1);
    assert Up(c, 1) == Up(Parent(c), 0);
  }

  /** Covered exactly once: no two appended cells hold the same cell. */
  lemma CoveredOnce(v: View, cur: Loc, behind: bool, q: Loc, i: nat, j: nat)
    requires i < |Selected(v, cur, behind)| && j < |Selected(v, cur, behind)|
    requires Under(Selected(v, cur, behind)[i], q) && Under(Selected(v, cur, behind)[j], q)
    ensures i == j
  {
    hide Selected, Under;
    var s := Selected(v, cur, behind);
    SelectedApart(v, cur, behind);
    if s[i].l <= s[j].l {
      Nested(s[i], s[j], q);
    } else {
      Nested(s[j], s[i], q);
    }
    assert Overlap(s[i], s[j]) && Overlap(s[j], s[i]);
  }

  /** An appended cell is as fine as wanted, or as fine as can be, or fills a gap; it and the cells above it
      are in view, and none of those was fine enough. */
  lemma {:induction false} SelectedLevel(v: View, cur: Loc, behind: bool, k: nat)
    requires k < |Selected(v, cur, behind)|
    ensures var a := Selected(v, cur, behind)[k];
      && Under(cur, a) && ChainInView(v, cur, a)
      && (forall d: nat :: 0 < d <= a.l - cur.l ==> !Stops(v, Up(a, d)))
      && (Stops(v, a) || (a != cur && Selected(v, a, v.target(Parent(a)) < 0) == []))
    decreases Depth(v, cur)
  {
    hide Selected, Children, Stops, Dropped, Up;
    SelectedInside(v, cur, behind, k);
    var a := Selected(v, cur, behind)[k];
    if !(Selected(v, cur, behind) == [cur] && Stops(v, cur)) {
      var fill, i, j := Splits(v, cur, behind, k);
      var c := Children(cur)[i];
      ChildrenAre(cur, c);
      DepthOf(v, cur);
      if fill {
        NextUp(c);
      } else {
        SelectedLevel(v, c, v.target(cur) < 0, j);
        UpAgain(a, a.l - c.l, 1);
        NextUp(c);
      }
    }
  }

  /** The cell is no coarser than wanted. */
  predicate Enough(v: View, u: Loc)
  {
    0 <= v.target(u) <= u.l
  }

  /** The descent from cur comes to a: all on the way is in view, and nothing above a is fine enough. */
  ghost predicate Reached(v: View, cur: Loc, a: Loc)
  {
    && Under(cur, a) && ChainInView(v, cur, a) && (a == cur || a.l <= v.maxlod)
    && forall d: nat :: 0 < d <= a.l - cur.l ==> !Enough(v, Up(a, d))
  }

  /** Whether the cell that the descent comes from reaches behind the camera. */
  predicate Behind(v: View, cur: Loc, behind: bool, a: Loc)
  {
    if a == cur then behind else v.target(Parent(a)) < 0
  }

  /** As fine as wanted, or finer and not dropped; where no level is wanted, as fine as can be. */
  predicate Wanted(v: View, a: Loc, behind: bool)
  {
    if v.target(a) < 0 then a.l == v.maxlod else a.l == v.target(a) || (a.l > v.target(a) && !behind)
  }

  ghost predicate Taken(v: View, cur: Loc, behind: bool, a: Loc)
  {
    Reached(v, cur, a) && Wanted(v, a, Behind(v, cur, behind, a))
  }

  /** A cell under which nothing is taken, next to one under which something is. */
  ghost predicate FillsGap(v: View, cur: Loc, behind: bool, a: Loc)
  {
    && a != cur && Reached(v, cur, a)
    && (forall x :: !Taken(v, a, Behind(v, cur, behind, a), x))
    && exists x :: Taken(v, Parent(a), Behind(v, cur, behind, Parent(a)), x)
  }

  /** The child of cur that the descent goes on to. */
  lemma ReachedDown(v: View, cur: Loc, a: Loc) returns (c: Loc)
    requires Reached(v, cur, a) && a != cur
    ensures Parent(c) == cur && v.visible(c) && Reached(v, c, a) && !Enough(v, cur) && cur.l < v.maxlod
    ensures c.l == cur.l + 1
  {
    hide Up, Enough;
    LevelBelow(cur, a);
    var n: nat := a.l - cur.l - 1;
    c := Up(a, n);
    ChildOn(cur, a);
    assert Up(a, n + 1) == cur;
  }

  lemma LevelBelow(cur: Loc, a: Loc)
    requires Under(cur, a) && a != cur
    ensures cur.l < a.l
  {
  }

  lemma ReachedUp(v: View, cur: Loc, c: Loc, a: Loc)
    requires Parent(c) == cur && v.visible(c) && Reached(v, c, a) && !Enough(v, cur) && cur.l < v.maxlod
    ensures Reached(v, cur, a) && a != cur
  {
    hide Up, Enough;
    ChildUnder(cur, c);
    UnderTrans(cur, c, a);
    var n: nat := a.l - c.l;
    assert Up(a, n) == c && Up(a, n + 1) == cur;
  }

  lemma ReachedSelf(v: View, cur: Loc)
    ensures Reached(v, cur, cur)
  {
    hide Up;
    SelfUnder(cur);
  }

  lemma ReachedBelow(v: View, cur: Loc, a: Loc)
    requires Reached(v, cur, a)
    ensures Under(cur, a)
  {
  }

  /** Below a child the descent is the same as from it. */
  lemma TakenDown(v: View, cur: Loc, behind: bool, c: Loc, a: Loc)
    requires Parent(c) == cur && v.visible(c) && !Enough(v, cur) && cur.l < v.maxlod && Under(c, a)
    ensures Taken(v, cur, behind, a) <==> Taken(v, c, v.target(cur) < 0, a)
    ensures Reached(v, cur, a) <==> Reached(v, c, a)
  {
    hide Reached, Enough, Wanted;
    NotAbove(cur, c, a);
    if Reached(v, c, a) {
      ReachedUp(v, cur, c, a);
    }
    if Reached(v, cur, a) {
      var d := ReachedDown(v, cur, a);
      ReachedBelow(v, d, a);
      Nested(d, c, a);
      SameLevel(d, c);
    }
  }

  lemma SameLevel(d: Loc, c: Loc)
    requires Under(d, c) && d.l == c.l
    ensures d == c
  {
  }

  lemma NotAbove(cur: Loc, c: Loc, a: Loc)
    requires Parent(c) == cur && Under(c, a)
    ensures a != cur && c.l == cur.l + 1
  {
    hide Up;
  }

  /** Where the descent goes on below cur. */
  lemma GoesOn(v: View, cur: Loc, behind: bool)
    requires !Enough(v, cur) && cur.l < v.maxlod
    ensures !Stops(v, cur) && !Dropped(v, cur, behind) && !Wanted(v, cur, behind)
  {
  }

  lemma StopsHere(v: View, cur: Loc, behind: bool)
    requires Enough(v, cur) || cur.l >= v.maxlod
    ensures Selected(v, cur, behind) == if Wanted(v, cur, behind) then [cur] else []
  {
    hide Found, Fill, Children;
  }

  /** The result is false exactly if the descent comes to no cell that is wanted. */
  lemma {:induction false} NothingSelected(v: View, cur: Loc, behind: bool)
    ensures Selected(v, cur, behind) == [] <==> forall a :: !Taken(v, cur, behind, a)
    decreases Depth(v, cur)
  {
    hide Reached, Wanted, Selected, Enough, Children, Under, Stops, Dropped;
    ReachedSelf(v, cur);
    assert Taken(v, cur, behind, cur) <==> Wanted(v, cur, behind);
    if Enough(v, cur) || cur.l >= v.maxlod {
      StopsHere(v, cur, behind);
      forall a | Taken(v, cur, behind, a) ensures a == cur {
        if a != cur {
          var c := ReachedDown(v, cur, a);
        }
      }
    } else {
      GoesOn(v, cur, behind);
      if Selected(v, cur, behind) != [] {
        var c := SomeChild(v, cur, behind);
        NothingSelected(v, c, v.target(cur) < 0);
        var a :| Taken(v, c, v.target(cur) < 0, a);
        ReachedBelow(v, c, a);
        TakenDown(v, cur, behind, c, a);
      }
      forall a | Taken(v, cur, behind, a) ensures Selected(v, cur, behind) != [] {
        var c := ReachedDown(v, cur, a);
        ReachedBelow(v, c, a);
        TakenDown(v, cur, behind, c, a);
        NothingSelected(v, c, v.target(cur) < 0);
        ChildSelected(v, cur, behind, c);
        assert Selected(v, c, v.target(cur) < 0)[0] in Selected(v, cur, behind);
      }
    }
  }

  /** A child for which something was appended. */
  lemma SomeChild(v: View, cur: Loc, behind: bool) returns (c: Loc)
    requires Selected(v, cur, behind) != [] && !Stops(v, cur)
    ensures Parent(c) == cur && v.visible(c) && Selected(v, c, v.target(cur) < 0) != [] && Depth(v, c) < Depth(v, cur)
  {
    hide Children, Found, Fill;
    DepthOf(v, cur);
    var cs, b, n := Children(cur), v.target(cur) < 0, Depth(v, cur) - 1;
    var i, j := FoundFrom(v, cs, b, n, 0);
    c := cs[i];
    ChildrenAre(cur, c);
  }

  /** What is appended for a child is appended, and the child itself if that is nothing but something else is. */
  lemma ChildSelected(v: View, cur: Loc, behind: bool, c: Loc)
    requires !Stops(v, cur) && !Dropped(v, cur, behind) && cur.l < v.maxlod && Parent(c) == cur && v.visible(c)
    ensures Depth(v, c) < Depth(v, cur)
    ensures forall a :: a in Selected(v, c, v.target(cur) < 0) ==> a in Selected(v, cur, behind)
    ensures Selected(v, c, v.target(cur) < 0) == [] && Selected(v, cur, behind) != [] ==> c in Selected(v, cur, behind)
  {
    hide Children, Found, Fill;
    var cs, b, n := Children(cur), v.target(cur) < 0, Depth(v, cur) - 1;
    DepthOf(v, cur);
    ChildrenAre(cur, c);
    var i :| 0 <= i < |cs| && cs[i] == c;
    InView(v, cs, b, n, i);
  }

  /** Exactly the wanted cells that the descent comes to are appended, and those that fill gaps between them. */
  lemma {:induction false} SelectedExactly(v: View, cur: Loc, behind: bool, a: Loc)
    ensures a in Selected(v, cur, behind) <==> Taken(v, cur, behind, a) || FillsGap(v, cur, behind, a)
    decreases Depth(v, cur)
  {
    hide Reached, Wanted, Selected, Enough, Children, Under, Stops, Dropped, FillsGap;
    ReachedSelf(v, cur);
    NotAGap(v, cur, behind, a);
    if Enough(v, cur) || cur.l >= v.maxlod {
      StopsHere(v, cur, behind);
      if Reached(v, cur, a) && a != cur {
        var c := ReachedDown(v, cur, a);
      }
    } else {
      var b := v.target(cur) < 0;
      GoesOn(v, cur, behind);
      if a in Selected(v, cur, behind) {
        var c := FromChild(v, cur, behind, a);
        if a in Selected(v, c, b) {
          SelectedExactly(v, c, b, a);
          GapDown(v, cur, behind, c, a);
        } else {
          NothingSelected(v, c, b);
          NothingSelected(v, cur, behind);
          MakeGap(v, cur, behind, c, b);
        }
        TakenDown(v, cur, behind, c, a);
      }
      if Reached(v, cur, a) && a != cur {
        var c := ReachedDown(v, cur, a);
        ReachedBelow(v, c, a);
        TakenDown(v, cur, behind, c, a);
        ChildSelected(v, cur, behind, c);
        SelectedExactly(v, c, b, a);
        GapDown(v, cur, behind, c, a);
        if a == c && FillsGap(v, cur, behind, a) {
          GapParts(v, cur, behind, a);
          NothingSelected(v, c, b);
          NothingSelected(v, cur, behind);
        }
      }
    }
  }

  /** The cells that are taken or fill gaps, each once. */
  ghost predicate Exactly(v: View, cur: Loc, behind: bool, s: seq<Loc>)
  {
    && (forall a :: a in s <==> Taken(v, cur, behind, a) || FillsGap(v, cur, behind, a))
    && forall i, j :: 0 <= i < j < |s| ==> s[i] != s[j]
  }

  lemma MakeExactly(v: View, cur: Loc, behind: bool)
    ensures Exactly(v, cur, behind, Selected(v, cur, behind))
  {
    hide Selected, Taken, FillsGap, Under;
    var s := Selected(v, cur, behind);
    SelectedApart(v, cur, behind);
    forall i, j | 0 <= i < j < |s| ensures s[i] != s[j] {
      SelfUnder(s[i]);
    }
    forall a ensures a in s <==> Taken(v, cur, behind, a) || FillsGap(v, cur, behind, a) {
      SelectedExactly(v, cur, behind, a);
    }
  }

  lemma NotAGap(v: View, cur: Loc, behind: bool, a: Loc)
    ensures FillsGap(v, cur, behind, a) ==> Reached(v, cur, a) && a != cur
  {
    hide Reached;
  }

  lemma GapParts(v: View, cur: Loc, behind: bool, a: Loc)
    requires FillsGap(v, cur, behind, a) && Parent(a) == cur
    ensures (forall x :: !Taken(v, a, Behind(v, cur, behind, a), x)) && exists x :: Taken(v, cur, behind, x)
    ensures Behind(v, cur, behind, a) == (v.target(cur) < 0)
  {
    hide Taken, Reached;
  }

  lemma MakeGap(v: View, cur: Loc, behind: bool, c: Loc, b: bool)
    requires Parent(c) == cur && v.visible(c) && !Enough(v, cur) && cur.l < v.maxlod && b == (v.target(cur) < 0)
    requires (forall x :: !Taken(v, c, b, x)) && exists x :: Taken(v, cur, behind, x)
    ensures FillsGap(v, cur, behind, c)
  {
    hide Taken, Reached, Enough;
    ReachedSelf(v, c);
    ReachedUp(v, cur, c, c);
    assert Behind(v, cur, behind, c) == b && Behind(v, cur, behind, cur) == behind;
  }

  lemma GapDown(v: View, cur: Loc, behind: bool, c: Loc, a: Loc)
    requires Parent(c) == cur && v.visible(c) && !Enough(v, cur) && cur.l < v.maxlod && Under(c, a)
    ensures a != c ==> (FillsGap(v, cur, behind, a) <==> FillsGap(v, c, v.target(cur) < 0, a))
    ensures a == c ==> !FillsGap(v, c, v.target(cur) < 0, a)
  {
    hide Taken, Reached, Enough, Under;
    NotAbove(cur, c, a);
    TakenDown(v, cur, behind, c, a);
    if a != c {
      ParentBelow(c, a);
      NotAbove(cur, c, Parent(a));
      assert Behind(v, c, v.target(cur) < 0, a) == Behind(v, cur, behind, a);
      assert Behind(v, c, v.target(cur) < 0, Parent(a)) == Behind(v, cur, behind, Parent(a));
    }
  }

  lemma ParentBelow(c: Loc, a: Loc)
    requires Under(c, a) && a != c
    ensures Under(c, Parent(a))
  {
  }

  /** The child of cur from which an appended cell comes. */
  lemma FromChild(v: View, cur: Loc, behind: bool, a: Loc) returns (c: Loc)
    requires a in Selected(v, cur, behind) && !Stops(v, cur)
    ensures Parent(c) == cur && v.visible(c) && Under(c, a) && Depth(v, c) < Depth(v, cur)
    ensures a in Selected(v, c, v.target(cur) < 0) || (a == c && Selected(v, c, v.target(cur) < 0) == [])
  {
    hide Selected, Children, Under, Stops, Dropped;
    var k :| 0 <= k < |Selected(v, cur, behind)| && Selected(v, cur, behind)[k] == a;
    var fill, i, j := Splits(v, cur, behind, k);
    c := Children(cur)[i];
    ChildrenAre(cur, c);
    DepthOf(v, cur);
    if fill {
      SelfUnder(c);
    } else {
      SelectedInside(v, c, v.target(cur) < 0, j);
    }
  }

  lemma NextUp(c: Loc)
    ensures Up(c, 1) == Parent(c) && Up(c, 0) == c
  {
    assert Up(c, 1) == Up(Parent(c), 0);
  }
}
