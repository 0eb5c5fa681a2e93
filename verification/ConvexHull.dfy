/** core/ConvexHull.cpp: the Graham scan, on integer coordinates. */
module ConvexHull {

  datatype Point = Point(x: int, y: int)

  /** Twice the signed area of a triangle: positive where p, q, r turn left. */
  function Cross(p: Point, q: Point, r: Point): int
  {
    (q.x - p.x) * (r.y - p.y) - (q.y - p.y) * (r.x - p.x)
  }

  /** distSq, lines 40-44. */
  function DistSq(p: Point, q: Point): int
  {
    (p.x - q.x) * (p.x - q.x) + (p.y - q.y) * (p.y - q.y)
  }

  /** orientation, lines 51-58. */
  function Orientation(p: Point, q: Point, r: Point): int
  {
    var val := (q.y - p.y) * (r.x - q.x) - (q.x - p.x) * (r.y - q.y);
    if val == 0 then 0 else if val > 0 then 1 else 2
  }

  lemma OrientationIs(p: Point, q: Point, r: Point)
    ensures Orientation(p, q, r) == if Cross(p, q, r) == 0 then 0 else if Cross(p, q, r) < 0 then 1 else 2
  {
    assert (q.y - p.y) * (r.x - q.x) - (q.x - p.x) * (r.y - q.y) == -Cross(p, q, r);
  }

  lemma Turns(p: Point, q: Point, r: Point)
    ensures Cross(p, q, r) == Cross(q, r, p) == Cross(r, p, q) && Cross(p, r, q) == -Cross(p, q, r)
    ensures Cross(p, p, q) == Cross(p, q, p) == Cross(p, q, q) == 0
  {
  }

  lemma SplitAt(p: Point, a: Point, b: Point, c: Point)
    ensures Cross(a, b, c) == Cross(p, a, b) + Cross(p, b, c) - Cross(p, a, c)
  {
  }

  /** Four directions from b: the three ways to pair them. */
  lemma Exchange(b: Point, a: Point, c: Point, d: Point, p: Point)
    ensures Cross(b, a, d) * Cross(b, c, p) == Cross(b, a, c) * Cross(b, d, p) + Cross(b, a, p) * Cross(b, c, d)
  {
  }

  /** x as a mean of the corners u, v, w, measured from the line through a and b. */
  lemma Barycentric(a: Point, b: Point, u: Point, v: Point, w: Point, x: Point)
    ensures Cross(a, b, x) * Cross(u, v, w)
         == Cross(a, b, u) * Cross(v, w, x) + Cross(a, b, v) * Cross(w, u, x) + Cross(a, b, w) * Cross(u, v, x)
  {
  }

  lemma Signs(x: int, y: int)
    ensures x > 0 && y > 0 ==> x * y > 0
    ensures x >= 0 && y >= 0 ==> x * y >= 0
    ensures x > 0 && y < 0 ==> x * y < 0
    ensures x < 0 && y > 0 ==> x * y < 0
    ensures x < 0 && y < 0 ==> x * y > 0
    ensures x == 0 ==> x * y == 0
  {
  }

  /** A left turn at b and one at c make a left turn from a over b to d, as seen from p. */
  lemma LeftSoon(p: Point, a: Point, b: Point, c: Point, d: Point)
    requires Cross(p, a, b) > 0 && Cross(p, b, c) > 0 && Cross(p, b, d) > 0 && Cross(a, b, c) > 0 && Cross(b, c, d) > 0
    ensures Cross(a, b, d) > 0
  {
    hide Cross;
    Exchange(b, a, c, d, p);
    Turns(a, b, c);
    Turns(b, c, a);
    Turns(p, b, c);
    Turns(p, b, d);
    Turns(p, a, b);
    Turns(b, p, a);
    Turns(a, b, d);
    Turns(b, a, d);
    Signs(Cross(b, a, c), Cross(b, d, p));
    Signs(Cross(b, a, p), Cross(b, c, d));
    Signs(Cross(b, a, d), Cross(b, c, p));
  }

  /** And from a over c to d. */
  lemma LeftLate(p: Point, a: Point, b: Point, c: Point, d: Point)
    requires Cross(p, a, c) > 0 && Cross(p, b, c) > 0 && Cross(p, c, d) > 0 && Cross(a, b, c) > 0 && Cross(b, c, d) > 0
    ensures Cross(a, c, d) > 0
  {
    hide Cross;
    Exchange(c, a, b, d, p);
    Turns(a, b, c);
    Turns(b, c, d);
    Turns(c, d, b);
    Turns(p, c, d);
    Turns(p, b, c);
    Turns(c, p, b);
    Turns(p, a, c);
    Turns(c, p, a);
    Turns(a, c, d);
    Turns(c, a, d);
    Signs(Cross(c, a, b), Cross(c, d, p));
    Signs(Cross(c, a, p), Cross(c, b, d));
    Signs(Cross(c, a, d), Cross(c, b, p));
  }

  /** q is the pivot p, or above it, or on its right. */
  predicate Above(p: Point, q: Point)
  {
    q == p || q.y > p.y || (q.y == p.y && q.x > p.x)
  }

  /** compare, lines 62-73, gives -1. */
  predicate Before(p: Point, a: Point, b: Point)
  {
    Cross(p, a, b) > 0 || (Cross(p, a, b) == 0 && DistSq(p, a) <= DistSq(p, b))
  }

  function Compare(p: Point, a: Point, b: Point): int
  {
    var o := Orientation(p, a, b);
    if o == 0 then if DistSq(p, b) >= DistSq(p, a) then -1 else 1
    else if o == 2 then -1 else 1
  }

  lemma CompareIs(p: Point, a: Point, b: Point)
    ensures Compare(p, a, b) < 0 <==> Before(p, a, b)
    ensures !Before(p, a, b) ==> Before(p, b, a)
  {
    hide Cross, DistSq, Orientation;
    OrientationIs(p, a, b);
    Turns(p, a, b);
  }

  lemma Heights(p: Point, a: Point, b: Point, c: Point)
    ensures (b.y - p.y) * Cross(p, a, c) == (a.y - p.y) * Cross(p, b, c) + (c.y - p.y) * Cross(p, a, b)
  {
  }

  /** Beside the pivot itself, the directions span less than half a turn. */
  lemma AtPivotLevel(p: Point, a: Point, b: Point)
    requires Above(p, a) && Above(p, b) && b != p && b.y == p.y
    ensures Cross(p, a, b) <= 0 && (Cross(p, a, b) == 0 ==> a.y == p.y)
    ensures Cross(p, b, a) >= 0 && (Cross(p, b, a) == 0 ==> a.y == p.y)
  {
    Signs(a.y - p.y, b.x - p.x);
  }

  lemma DistZero(p: Point, q: Point)
    ensures DistSq(p, q) >= 0 && (DistSq(p, q) == 0 <==> p == q)
  {
    Signs(p.x - q.x, p.x - q.x);
    Signs(p.y - q.y, p.y - q.y);
    Signs(q.x - p.x, q.x - p.x);
    Signs(q.y - p.y, q.y - p.y);
    assert (q.x - p.x) * (q.x - p.x) == (p.x - q.x) * (p.x - q.x);
    assert (q.y - p.y) * (q.y - p.y) == (p.y - q.y) * (p.y - q.y);
  }

  /** The order of directions above the pivot is transitive. */
  lemma DirectionTrans(p: Point, a: Point, b: Point, c: Point)
    requires Above(p, a) && Above(p, b) && Above(p, c) && a != p && b != p && c != p
    requires Cross(p, a, b) >= 0 && Cross(p, b, c) >= 0
    ensures Cross(p, a, c) >= 0 && (Cross(p, a, c) == 0 ==> Cross(p, a, b) == 0 && Cross(p, b, c) == 0)
  {
    hide Cross;
    Heights(p, a, b, c);
    Signs(a.y - p.y, Cross(p, b, c));
    Signs(c.y - p.y, Cross(p, a, b));
    Signs(b.y - p.y, Cross(p, a, c));
    if b.y == p.y {
      AtPivotLevel(p, a, b);
      LevelTrans(p, a, b, c);
    } else {
      if c.y == p.y {
        AtPivotLevel(p, b, c);
      }
      if a.y == p.y {
        AtPivotLevel(p, c, a);
        if c.y == p.y {
          AtPivotLevel(p, b, c);
        }
      }
    }
  }

  lemma LevelTrans(p: Point, a: Point, b: Point, c: Point)
    requires a.y == b.y == p.y && a.x > p.x && b.x > p.x && Above(p, c)
    ensures Cross(p, a, c) >= 0 && Cross(p, a, b) == 0 && (Cross(p, a, c) == 0 ==> Cross(p, b, c) == 0)
  {
    Signs(a.x - p.x, c.y - p.y);
    Signs(b.x - p.x, c.y - p.y);
  }

  lemma BeforeTrans(p: Point, a: Point, b: Point, c: Point)
    requires Above(p, a) && Above(p, b) && Above(p, c) && Before(p, a, b) && Before(p, b, c)
    ensures Before(p, a, c)
  {
    hide Cross, DistSq;
    Turns(p, a, c);
    Turns(p, a, b);
    Turns(p, b, c);
    Turns(p, b, a);
    Turns(p, c, b);
    DistZero(p, a);
    DistZero(p, b);
    DistZero(p, c);
    if a != p && b != p && c != p {
      DirectionTrans(p, a, b, c);
    }
  }

  /** Lines 79-89: the lowest point, and the leftmost of several. */
  method Lowest(points: seq<Point>) returns (min: nat)
    requires points != []
    ensures min < |points| && forall k :: 0 <= k < |points| ==> Above(points[min], points[k])
  {
    var ymin: int := points[0].y;
    min := 0;
    for i := 1 to |points|
      invariant min < i && ymin == points[min].y && forall k :: 0 <= k < i ==> Above(points[min], points[k])
    {
      var y: int := points[i].y;
      if y < ymin || (ymin == y && points[i].x < points[min].x) {
        ymin, min := points[i].y, i;
      }
    }
  }

  ghost predicate AllAbove(p: Point, s: seq<Point>)
  {
    forall i :: 0 <= i < |s| ==> Above(p, s[i])
  }

  ghost predicate SortedFrom(p: Point, s: seq<Point>)
  {
    forall i, j :: 0 <= i < j < |s| ==> Before(p, s[i], s[j])
  }

  /** A new point in its place. */
  method Insert(p: Point, s: seq<Point>, x: Point) returns (r: seq<Point>)
    requires AllAbove(p, s) && SortedFrom(p, s) && Above(p, x)
    ensures multiset(r) == multiset(s) + multiset{x} && AllAbove(p, r) && SortedFrom(p, r)
  {
    hide Before, Above;
    var k: nat := |s|;
    while k > 0 && Compare(p, s[k - 1], x) >= 0
      invariant k <= |s| && forall j :: k <= j < |s| ==> Before(p, x, s[j])
    {
      CompareIs(p, s[k - 1], x);
      k := k - 1;
    }
    r := s[..k] + [x] + s[k..];
    assert s == s[..k] + s[k..];
    if k > 0 {
      CompareIs(p, s[k - 1], x);
      forall i | 0 <= i < k ensures Before(p, s[i], x) {
        if i < k - 1 {
          BeforeTrans(p, s[i], s[k - 1], x);
        }
      }
    }
    InsertSorted(p, s, x, k);
  }

  lemma InsertSorted(p: Point, s: seq<Point>, x: Point, k: nat)
    requires k <= |s| && AllAbove(p, s) && SortedFrom(p, s) && Above(p, x)
    requires forall i :: 0 <= i < k ==> Before(p, s[i], x)
    requires forall i :: k <= i < |s| ==> Before(p, x, s[i])
    ensures AllAbove(p, s[..k] + [x] + s[k..]) && SortedFrom(p, s[..k] + [x] + s[k..])
  {
    hide Before, Above;
  }

  /** The place of the library's qsort: some order in which compare() never puts a point after the next. */
  method Qsort(p: Point, s: seq<Point>) returns (r: seq<Point>)
    requires AllAbove(p, s)
    ensures multiset(r) == multiset(s) && AllAbove(p, r) && SortedFrom(p, r)
  {
    hide Before, Above;
    r := [];
    for i := 0 to |s|
      invariant multiset(r) == multiset(s[..i]) && AllAbove(p, r) && SortedFrom(p, r)
    {
      assert s[..i + 1] == s[..i] + [s[i]];
      r := Insert(p, r, s[i]);
    }
    assert s[..|s|] == s;
  }

  /** x is on the way from the pivot to q. */
  predicate OnRay(p: Point, q: Point, x: Point)
  {
    Above(p, q) && Above(p, x) && Cross(p, q, x) == 0 && DistSq(p, x) <= DistSq(p, q)
  }

  /** Points in different directions, in order. */
  ghost predicate Fan(p: Point, q: seq<Point>)
  {
    forall i, j :: 0 <= i < j < |q| ==> Cross(p, q[i], q[j]) > 0
  }

  lemma RaySelf(p: Point, q: Point)
    requires Above(p, q)
    ensures OnRay(p, q, q)
  {
    Turns(p, q, q);
  }

  lemma RayOn(p: Point, q: Point, r: Point, x: Point)
    requires OnRay(p, q, x) && Above(p, r) && Cross(p, q, r) == 0 && DistSq(p, q) <= DistSq(p, r)
    ensures OnRay(p, r, x)
  {
    hide Cross, DistSq, Above;
    DistZero(p, q);
    DistZero(p, x);
    DistZero(p, r);
    Turns(p, r, x);
    Turns(p, q, x);
    Turns(p, x, q);
    Turns(p, q, r);
    if q != p && x != p {
      DirectionTrans(p, r, q, x);
      DirectionTrans(p, x, q, r);
    }
  }

  /** Every point of s is on the way to one of q. */
  ghost predicate Kept(p: Point, q: seq<Point>, s: seq<Point>)
  {
    forall i :: 0 <= i < |s| ==> HasRay(p, q, s[i])
  }

  ghost predicate HasRay(p: Point, q: seq<Point>, x: Point)
  {
    exists k :: 0 <= k < |q| && OnRay(p, q[k], x)
  }

  /** Lines 106-118: of the points in one direction only the last, and farthest, is kept. */
  method Dedupe(p: Point, s: seq<Point>) returns (q: seq<Point>)
    requires AllAbove(p, s) && SortedFrom(p, s)
    ensures Fan(p, q) && Kept(p, q, s) && AllAbove(p, q) && (forall k :: 0 <= k < |q| ==> q[k] in s)
    ensures (s != [] ==> q != [])
  {
    hide Cross, DistSq, Above, OnRay, Kept, Fan, SortedFrom;
    q := [];
    var i: nat := 0;
    NothingKept(p);
    assert s[..0] == [];
    while i < |s|
      invariant i <= |s| && Fan(p, q) && Kept(p, q, s[..i]) && AllAbove(p, q)
      invariant (forall k :: 0 <= k < |q| ==> q[k] in s)
      invariant q != [] && i < |s| ==> i > 0 && q[|q| - 1] == s[i - 1] && Cross(p, s[i - 1], s[i]) > 0
      invariant i > 0 ==> q != []
    {
      ghost var i0 := i;
      RaySelf(p, s[i]);
      while i < |s| - 1 && Orientation(p, s[i], s[i + 1]) == 0
        invariant i0 <= i < |s| && forall j :: i0 <= j <= i ==> OnRay(p, s[i], s[j])
      {
        OrientationIs(p, s[i], s[i + 1]);
        SortedAt(p, s, i);
        RaySelf(p, s[i + 1]);
        forall j | i0 <= j <= i ensures OnRay(p, s[i + 1], s[j]) {
          RayOn(p, s[i], s[i + 1], s[j]);
        }
        i := i + 1;
      }
      FanMore(p, q, s, i0, i);
      KeptMore(p, q, s, i0, i);
      if i + 1 < |s| {
        OrientationIs(p, s[i], s[i + 1]);
        SortedAt(p, s, i);
      }
      q := q + [s[i]];
      i := i + 1;
    }
    assert s[..|s|] == s;
  }

  lemma NothingKept(p: Point)
    ensures Fan(p, []) && Kept(p, [], [])
  {
  }

  lemma SortedAt(p: Point, s: seq<Point>, i: nat)
    requires SortedFrom(p, s) && i + 1 < |s|
    ensures Before(p, s[i], s[i + 1])
  {
    hide Before;
  }

  /** The directions of a fan keep their order beyond its last point. */
  lemma FanMore(p: Point, q: seq<Point>, s: seq<Point>, i0: nat, i: nat)
    requires Fan(p, q) && AllAbove(p, q) && AllAbove(p, s) && i0 <= i < |s| && OnRay(p, s[i], s[i0])
    requires q != [] ==> i0 > 0 && q[|q| - 1] == s[i0 - 1] && Cross(p, s[i0 - 1], s[i0]) > 0
    ensures Fan(p, q + [s[i]])
  {
    hide Cross, DistSq, Above;
    forall k | 0 <= k < |q| ensures Cross(p, q[k], s[i]) > 0 {
      var l := q[|q| - 1];
      assert l == s[i0 - 1];
      SameDirection(p, l, s[i0], s[i]);
      if k < |q| - 1 {
        FanTrans(p, q[k], l, s[i]);
      }
    }
  }

  lemma NotPivot(p: Point, a: Point, b: Point)
    requires Cross(p, a, b) != 0
    ensures a != p && b != p
  {
    Turns(p, a, b);
  }

  lemma SameDirection(p: Point, l: Point, a: Point, b: Point)
    requires Above(p, l) && Cross(p, l, a) > 0 && OnRay(p, b, a)
    ensures Cross(p, l, b) > 0
  {
    hide Cross, DistSq, Above;
    NotPivot(p, l, a);
    DistZero(p, a);
    DistZero(p, b);
    Turns(p, a, b);
    Turns(p, b, a);
    DirectionTrans(p, l, a, b);
  }

  lemma FanTrans(p: Point, a: Point, b: Point, c: Point)
    requires Above(p, a) && Above(p, b) && Above(p, c) && Cross(p, a, b) > 0 && Cross(p, b, c) > 0
    ensures Cross(p, a, c) > 0
  {
    hide Cross, Above;
    NotPivot(p, a, b);
    NotPivot(p, b, c);
    DirectionTrans(p, a, b, c);
  }

  lemma KeptMore(p: Point, q: seq<Point>, s: seq<Point>, i0: nat, i: nat)
    requires i0 <= i < |s| && Kept(p, q, s[..i0]) && forall j :: i0 <= j <= i ==> OnRay(p, s[i], s[j])
    ensures Kept(p, q + [s[i]], s[..i + 1])
  {
    hide OnRay;
    var q' := q + [s[i]];
    forall j | 0 <= j < i + 1 ensures HasRay(p, q', s[j]) {
      if j < i0 {
        assert HasRay(p, q, s[..i0][j]);
        var k :| 0 <= k < |q| && OnRay(p, q[k], s[j]);
        assert q'[k] == q[k];
      } else {
        assert q'[|q|] == s[i];
      }
    }
  }

  /** Strictly convex, and in counterclockwise order: any three of the points turn left. */
  ghost predicate Convex(s: seq<Point>)
  {
    forall i, j, k :: 0 <= i < j < k < |s| ==> Cross(s[i], s[j], s[k]) > 0
  }

  lemma ConvexAt(s: seq<Point>, i: nat, j: nat, k: nat)
    requires Convex(s) && i < j < k < |s|
    ensures Cross(s[i], s[j], s[k]) > 0
  {
  }

  /** The new point is to the left of the last edge, and seen from the pivot beyond all others. */
  lemma PushConvex(s: seq<Point>, r: Point)
    requires Convex(s) && |s| >= 2 && (forall k :: 1 <= k < |s| ==> Cross(s[0], s[k], r) > 0)
    requires Cross(s[|s| - 2], s[|s| - 1], r) > 0
    ensures Convex(s + [r])
  {
    hide Cross, Convex;
    var n := |s|;
    forall i | 0 <= i < n - 1 ensures Cross(s[i], s[n - 1], r) > 0 {
      if 1 <= i < n - 2 {
        ConvexAt(s, i, n - 2, n - 1);
        ConvexAt(s, 0, i, n - 1);
        ConvexAt(s, 0, n - 2, n - 1);
        LeftLate(s[0], s[i], s[n - 2], s[n - 1], r);
      }
    }
    forall i, j | 0 <= i < j < n ensures Cross(s[i], s[j], r) > 0 {
      if 1 <= i && j < n - 1 {
        ConvexAt(s, i, j, n - 1);
        ConvexAt(s, 0, i, j);
        ConvexAt(s, 0, j, n - 1);
        LeftSoon(s[0], s[i], s[j], s[n - 1], r);
      }
    }
    MakeConvex(s, r);
  }

  lemma MakeConvex(s: seq<Point>, r: Point)
    requires Convex(s) && forall i, j :: 0 <= i < j < |s| ==> Cross(s[i], s[j], r) > 0
    ensures Convex(s + [r])
  {
    hide Cross;
  }

  /** In the triangle of the pivot and two points seen from it in this order. */
  predicate InTriangle(p: Point, a: Point, b: Point, x: Point)
  {
    Cross(p, a, x) >= 0 && Cross(p, x, b) >= 0 && Cross(a, b, x) >= 0
  }

  ghost predicate InFan(s: seq<Point>, x: Point)
  {
    exists k :: 1 <= k < |s| - 1 && FanAt(s, k, x)
  }

  ghost predicate FanAt(s: seq<Point>, k: nat, x: Point)
    requires 1 <= k < |s| - 1
  {
    InTriangle(s[0], s[k], s[k + 1], x)
  }

  /** Where b is not outside the triangle of p, a and r, those on both sides of it are in that one. */
  lemma Merge(p: Point, a: Point, b: Point, r: Point, x: Point)
    requires Cross(p, a, b) > 0 && Cross(p, b, r) > 0 && Cross(p, a, r) > 0 && Cross(a, b, r) <= 0
    requires InTriangle(p, a, b, x) || InTriangle(p, b, r, x)
    ensures InTriangle(p, a, r, x)
  {
    hide Cross;
    Turns(a, b, r);
    Turns(p, a, r);
    Turns(a, r, b);
    Turns(a, r, p);
    Turns(r, a, r);
    Turns(a, r, r);
    if InTriangle(p, a, b, x) {
      Exchange(p, a, x, b, r);
      MergeNear(p, a, b, r, x);
    } else {
      MergeFar(p, a, b, r, x);
    }
  }

  lemma MergeNear(p: Point, a: Point, b: Point, r: Point, x: Point)
    requires Cross(p, a, b) > 0 && Cross(p, b, r) > 0 && Cross(p, a, r) > 0 && Cross(a, r, b) >= 0
    requires InTriangle(p, a, b, x)
    ensures Cross(p, x, r) >= 0 && Cross(a, r, x) >= 0
  {
    hide Cross;
    Exchange(p, a, x, b, r);
    Turns(p, x, b);
    Turns(p, b, x);
    Signs(Cross(p, a, x), Cross(p, b, r));
    Signs(Cross(p, a, r), Cross(p, x, b));
    Signs(Cross(p, a, b), Cross(p, x, r));
    Signs(Cross(p, x, r), Cross(p, a, b));
    Barycentric(a, r, p, a, b, x);
    Turns(a, r, p);
    Turns(p, a, r);
    Turns(a, r, a);
    Turns(a, b, x);
    Signs(Cross(a, r, p), Cross(a, b, x));
    Signs(Cross(a, r, a), Cross(b, p, x));
    Signs(Cross(a, r, b), Cross(p, a, x));
    Signs(Cross(a, r, x), Cross(p, a, b));
  }

  lemma MergeFar(p: Point, a: Point, b: Point, r: Point, x: Point)
    requires Cross(p, a, b) > 0 && Cross(p, b, r) > 0 && Cross(p, a, r) > 0 && Cross(a, r, b) >= 0
    requires InTriangle(p, b, r, x)
    ensures Cross(p, a, x) >= 0 && Cross(a, r, x) >= 0
  {
    hide Cross;
    Exchange(p, a, b, x, r);
    Signs(Cross(p, a, b), Cross(p, x, r));
    Signs(Cross(p, a, r), Cross(p, b, x));
    Signs(Cross(p, a, x), Cross(p, b, r));
    Barycentric(a, r, p, b, r, x);
    Turns(p, a, r);
    Turns(a, r, r);
    Turns(r, a, r);
    Turns(r, r, a);
    Turns(p, x, r);
    Turns(r, p, x);
    Signs(Cross(a, r, p), Cross(b, r, x));
    Signs(Cross(a, r, b), Cross(r, p, x));
    Signs(Cross(a, r, r), Cross(p, b, x));
    Signs(Cross(a, r, x), Cross(p, b, r));
  }

  /** Before the next point r is pushed: in the fan, or between its last ray and r. */
  ghost predicate Caught(s: seq<Point>, r: Point, x: Point)
    requires |s| >= 2
  {
    InFan(s, x) || InTriangle(s[0], s[|s| - 1], r, x)
  }

  /** Popping loses nothing. */
  lemma PopCatches(s: seq<Point>, r: Point, x: Point)
    requires |s| >= 3 && Convex(s) && (forall k :: 1 <= k < |s| ==> Cross(s[0], s[k], r) > 0)
    requires Cross(s[|s| - 2], s[|s| - 1], r) <= 0 && Caught(s, r, x)
    ensures Caught(s[..|s| - 1], r, x)
  {
    hide Cross, InTriangle, Convex;
    var n := |s|;
    var s' := s[..n - 1];
    ConvexAt(s, 0, n - 2, n - 1);
    if InFan(s, x) {
      var k :| 1 <= k < n - 1 && FanAt(s, k, x);
      if k < n - 2 {
        assert FanAt(s', k, x);
      } else {
        Merge(s[0], s[n - 2], s[n - 1], r, x);
      }
    } else {
      Merge(s[0], s[n - 2], s[n - 1], r, x);
    }
  }

  lemma PushCatches(s: seq<Point>, r: Point, x: Point)
    requires |s| >= 2 && Caught(s, r, x)
    ensures InFan(s + [r], x)
  {
    hide Cross, InTriangle;
    var t := s + [r];
    if InFan(s, x) {
      var k :| 1 <= k < |s| - 1 && FanAt(s, k, x);
      assert FanAt(t, k, x);
    } else {
      assert FanAt(t, |s| - 1, x);
    }
  }

  /** The corner itself. */
  lemma CornerIn(p: Point, a: Point, b: Point)
    requires Cross(p, a, b) > 0
    ensures InTriangle(p, a, b, a) && InTriangle(p, a, b, b)
  {
    Turns(p, a, b);
    Turns(a, b, a);
    Turns(a, b, b);
    Turns(p, a, a);
    Turns(p, b, b);
  }

  /** What holds of the stack when the first i points of the fan are done. */
  ghost predicate Scanned(p: Point, s: seq<Point>, q: seq<Point>, i: nat)
    requires i <= |q|
  {
    && |s| >= 2 && s[0] == p && Convex(s)
    && (forall k :: 1 <= k < |s| ==> s[k] in q[..i])
    && (forall k, j :: 1 <= k < |s| && i <= j < |q| ==> Cross(p, s[k], q[j]) > 0)
  }

  /** Lines 124-140. */
  method Scan(p: Point, q: seq<Point>) returns (s: seq<Point>)
    requires |q| >= 2 && Fan(p, q)
    ensures |s| >= 3 && s[0] == p && Convex(s) && (forall k :: 1 <= k < |s| ==> s[k] in q)
    ensures forall j :: 0 <= j < |q| ==> InFan(s, q[j])
  {
    hide Cross, InTriangle, Convex, InFan;
    s := [p, q[0], q[1]];
    ScanStart(p, q);
    for i := 2 to |q|
      invariant Scanned(p, s, q, i) && |s| >= 3 && forall j :: 0 <= j < i ==> InFan(s, q[j])
    {
      s := ScanTurn(p, s, q, i);
    }
  }

  lemma ScanStart(p: Point, q: seq<Point>)
    requires |q| >= 2 && Fan(p, q)
    ensures Scanned(p, [p, q[0], q[1]], q, 2)
    ensures InFan([p, q[0], q[1]], q[0]) && InFan([p, q[0], q[1]], q[1])
  {
    hide Cross;
    CornerIn(p, q[0], q[1]);
    var s := [p, q[0], q[1]];
    assert FanAt(s, 1, q[0]) && FanAt(s, 1, q[1]);
  }

  /** Lines 132-140: one more point. The pivot and the first point of the fan are never removed, since
      every later point is to their left. */
  method ScanTurn(p: Point, s0: seq<Point>, q: seq<Point>, i: nat) returns (s: seq<Point>)
    requires i < |q| && Fan(p, q) && Scanned(p, s0, q, i) && forall j :: 0 <= j < i ==> InFan(s0, q[j])
    ensures Scanned(p, s, q, i + 1) && |s| >= 3 && forall j :: 0 <= j < i + 1 ==> InFan(s, q[j])
  {
    hide Cross, InTriangle, Convex, InFan, Fan;
    s := s0;
    var r := q[i];
    while |s| > 1 && Orientation(s[|s| - 2], s[|s| - 1], r) != 2
      invariant Scanned(p, s, q, i) && forall j :: 0 <= j < i ==> Caught(s, r, q[j])
      decreases |s|
    {
      OrientationIs(s[|s| - 2], s[|s| - 1], r);
      TwoStay(p, s, q, i);
      forall j | 0 <= j < i ensures Caught(s[..|s| - 1], r, q[j]) {
        PopCatches(s, r, q[j]);
      }
      PopScanned(p, s, q, i);
      s := s[..|s| - 1];
    }
    OrientationIs(s[|s| - 2], s[|s| - 1], r);
    forall j | 0 <= j < i ensures InFan(s + [r], q[j]) {
      PushCatches(s, r, q[j]);
    }
    PushScanned(p, s, q, i);
    s := s + [r];
  }

  lemma TwoStay(p: Point, s: seq<Point>, q: seq<Point>, i: nat)
    requires i < |q| && Scanned(p, s, q, i) && Cross(s[|s| - 2], s[|s| - 1], q[i]) <= 0
    ensures |s| >= 3
  {
    hide Cross, Convex;
  }

  lemma PopScanned(p: Point, s: seq<Point>, q: seq<Point>, i: nat)
    requires i < |q| && Scanned(p, s, q, i) && |s| >= 3
    ensures Scanned(p, s[..|s| - 1], q, i)
  {
    hide Cross;
  }

  lemma PushScanned(p: Point, s: seq<Point>, q: seq<Point>, i: nat)
    requires i < |q| && Fan(p, q) && Scanned(p, s, q, i) && Cross(s[|s| - 2], s[|s| - 1], q[i]) > 0
    ensures Scanned(p, s + [q[i]], q, i + 1) && InFan(s + [q[i]], q[i])
  {
    hide Cross, Convex;
    var r := q[i];
    var t := s + [r];
    PushConvex(s, r);
    forall k | 1 <= k < |t| ensures t[k] in q[..i + 1] {
      if k < |s| {
        assert s[k] in q[..i];
      }
    }
    CornerIn(p, s[|s| - 1], r);
    assert FanAt(t, |s| - 1, r);
  }

  lemma AlongY(a: Point, b: Point, p: Point, q: Point, x: Point)
    requires Cross(p, q, x) == 0
    ensures (q.y - p.y) * Cross(a, b, x) == (q.y - x.y) * Cross(a, b, p) + (x.y - p.y) * Cross(a, b, q)
  {
    assert (q.y - p.y) * Cross(a, b, x) - (q.y - x.y) * Cross(a, b, p) - (x.y - p.y) * Cross(a, b, q)
        == (b.y - a.y) * Cross(p, q, x);
  }

  lemma AlongX(a: Point, b: Point, p: Point, q: Point, x: Point)
    requires Cross(p, q, x) == 0
    ensures (q.x - p.x) * Cross(a, b, x) == (q.x - x.x) * Cross(a, b, p) + (x.x - p.x) * Cross(a, b, q)
  {
    assert (q.x - p.x) * Cross(a, b, x) - (q.x - x.x) * Cross(a, b, p) - (x.x - p.x) * Cross(a, b, q)
        == (b.x - a.x) * Cross(p, q, x);
  }

  /** The nearer of two points in one direction is not higher. */
  lemma NotHigher(ux: int, uy: int, wx: int, wy: int)
    requires ux * wy == uy * wx && wx * wx + wy * wy <= ux * ux + uy * uy && uy > 0 && wy >= 0
    ensures wy <= uy
  {
    var n := ux * ux + uy * uy;
    assert (wy * wy) * n == (uy * uy) * (wx * wx + wy * wy) by {
      assert (wy * wy) * (ux * ux) == (ux * wy) * (ux * wy);
      assert (uy * uy) * (wx * wx) == (uy * wx) * (uy * wx);
    }
    if wy > uy {
      Squares(uy, wy);
      Signs(uy, uy);
      MulLess(uy * uy, wy * wy, n);
      MulNotLess(uy * uy, wx * wx + wy * wy, n);
    }
  }

  lemma Squares(a: int, b: int)
    requires 0 <= a < b
    ensures a * a < b * b
  {
    assert b * b == a * a + (b - a) * (b + a);
    Signs(b - a, b + a);
  }

  lemma MulLess(a: int, b: int, n: int)
    requires a < b && n > 0
    ensures a * n < b * n
  {
    Signs(b - a, n);
    assert (b - a) * n == b * n - a * n;
  }

  lemma MulNotLess(c: int, a: int, n: int)
    requires c >= 0 && a <= n
    ensures c * a <= c * n
  {
    Signs(c, n - a);
    assert c * (n - a) == c * n - c * a;
  }

  /** What is on one side of a line with both ends of a ray's piece is all of it. */
  lemma RayInside(a: Point, b: Point, p: Point, q: Point, x: Point)
    requires OnRay(p, q, x) && Cross(a, b, p) >= 0 && Cross(a, b, q) >= 0
    ensures Cross(a, b, x) >= 0
  {
    DistZero(p, q);
    DistZero(p, x);
    if q.y > p.y {
      RayShort(p, q, x);
      AlongY(a, b, p, q, x);
      Signs(q.y - x.y, Cross(a, b, p));
      Signs(x.y - p.y, Cross(a, b, q));
      Signs(q.y - p.y, Cross(a, b, x));
    } else if x != p {
      LevelShort(p, q, x);
      AlongX(a, b, p, q, x);
      Signs(q.x - x.x, Cross(a, b, p));
      Signs(x.x - p.x, Cross(a, b, q));
      Signs(q.x - p.x, Cross(a, b, x));
    }
  }

  lemma RayShort(p: Point, q: Point, x: Point)
    requires OnRay(p, q, x) && q.y > p.y
    ensures p.y <= x.y <= q.y
  {
    var ux, uy, wx, wy := q.x - p.x, q.y - p.y, x.x - p.x, x.y - p.y;
    assert DistSq(p, q) == ux * ux + uy * uy && DistSq(p, x) == wx * wx + wy * wy;
    NotHigher(ux, uy, wx, wy);
  }

  lemma LevelShort(p: Point, q: Point, x: Point)
    requires OnRay(p, q, x) && q != p && q.y == p.y && x != p
    ensures p.x < x.x <= q.x && x.y == p.y
  {
    Signs(q.x - p.x, x.y - p.y);
    var u, w := q.x - p.x, x.x - p.x;
    assert DistSq(p, q) == u * u && DistSq(p, x) == w * w;
    if w > u {
      Squares(u, w);
    }
  }

  /** x is to the left of every edge of the polygon, or on it. */
  ghost predicate Inside(s: seq<Point>, x: Point)
  {
    forall k :: 0 <= k < |s| ==> LeftOf(s, k, x)
  }

  ghost predicate LeftOf(s: seq<Point>, k: nat, x: Point)
    requires k < |s|
  {
    Cross(s[k], s[if k == |s| - 1 then 0 else k + 1], x) >= 0
  }

  lemma CornersInside(s: seq<Point>, k: nat, l: nat)
    requires Convex(s) && |s| >= 3 && k < |s| && l < |s|
    ensures LeftOf(s, k, s[l])
  {
    hide Cross, Convex;
    var m := if k == |s| - 1 then 0 else k + 1;
    Turns(s[k], s[m], s[l]);
    Turns(s[m], s[l], s[k]);
    Turns(s[k], s[m], s[k]);
    Turns(s[m], s[k], s[m]);
    Turns(s[k], s[m], s[m]);
    if l != k && l != m {
      if k == |s| - 1 {
        ConvexAt(s, 0, l, k);
      } else if l < k {
        ConvexAt(s, l, k, m);
      } else {
        ConvexAt(s, k, m, l);
      }
    }
  }

  /** What is in the fan is inside. */
  lemma FanInside(s: seq<Point>, x: Point, k: nat)
    requires Convex(s) && |s| >= 3 && InFan(s, x) && k < |s|
    ensures LeftOf(s, k, x)
  {
    hide Cross, Convex;
    var l :| 1 <= l < |s| - 1 && FanAt(s, l, x);
    var a, b, p, v, w := s[k], s[if k == |s| - 1 then 0 else k + 1], s[0], s[l], s[l + 1];
    CornersInside(s, k, 0);
    CornersInside(s, k, l);
    CornersInside(s, k, l + 1);
    ConvexAt(s, 0, l, l + 1);
    Barycentric(a, b, p, v, w, x);
    Turns(p, x, w);
    Turns(w, p, x);
    Signs(Cross(a, b, p), Cross(v, w, x));
    Signs(Cross(a, b, v), Cross(w, p, x));
    Signs(Cross(a, b, w), Cross(p, v, x));
    Signs(Cross(a, b, x), Cross(p, v, w));
  }

  lemma HullInside(p: Point, q: seq<Point>, s: seq<Point>, x: Point)
    requires |s| >= 3 && s[0] == p && Convex(s) && (forall j :: 0 <= j < |q| ==> InFan(s, q[j])) && HasRay(p, q, x)
    ensures Inside(s, x)
  {
    hide Cross, Convex, InFan, OnRay;
    var j :| 0 <= j < |q| && OnRay(p, q[j], x);
    forall k | 0 <= k < |s| ensures LeftOf(s, k, x) {
      FanInside(s, q[j], k);
      CornersInside(s, k, 0);
      RayInside(s[k], s[if k == |s| - 1 then 0 else k + 1], p, q[j], x);
    }
  }

  /** All on one line. */
  ghost predicate Collinear(s: seq<Point>)
  {
    forall i, j, k :: 0 <= i < |s| && 0 <= j < |s| && 0 <= k < |s| ==> Cross(s[i], s[j], s[k]) == 0
  }

  lemma OneDirection(p: Point, q: Point, a: Point, b: Point)
    requires OnRay(p, q, a) && OnRay(p, q, b)
    ensures Cross(p, a, b) == 0
  {
    hide Cross, DistSq, Above;
    DistZero(p, q);
    DistZero(p, a);
    DistZero(p, b);
    Turns(p, a, b);
    Turns(p, q, a);
    Turns(p, q, b);
    Turns(p, b, q);
    if a != p && b != p {
      DirectionTrans(p, a, q, b);
      DirectionTrans(p, b, q, a);
      Turns(p, a, q);
    }
  }

  function Reversed(s: seq<Point>): (r: seq<Point>)
    ensures |r| == |s| && forall k :: 0 <= k < |s| ==> r[k] == s[|s| - 1 - k]
  {
    seq(|s|, k requires 0 <= k < |s| => s[|s| - 1 - k])
  }

  /** Lines 143-148: the stack from its top. */
  method Unstack(s0: seq<Point>) returns (out: seq<Point>)
    ensures out == Reversed(s0)
  {
    var s: seq<Point> := s0;
    out := [];
    while s != []
      invariant |s| <= |s0| && s == s0[..|s|] && out == Reversed(s0)[..|s0| - |s|]
    {
      out := out + [s[|s| - 1]];
      s := s[..|s| - 1];
    }
  }

  /** Line 92: all points but the pivot. */
  lemma Others(points: seq<Point>, min: nat, x: Point)
    requires min < |points|
    ensures x in points <==> x == points[min] || x in points[min := points[0]][1..]
  {
    var rest := points[min := points[0]][1..];
    if x in points {
      var i :| 0 <= i < |points| && points[i] == x;
      if i == 0 && min > 0 {
        assert rest[min - 1] == x;
      } else if i != min {
        assert rest[i - 1] == x;
      }
    }
  }

  lemma PivotRay(p: Point, q: seq<Point>)
    requires q != [] && AllAbove(p, q)
    ensures HasRay(p, q, p)
  {
    Turns(p, q[0], p);
    DistZero(p, p);
    DistZero(p, q[0]);
    assert OnRay(p, q[0], p);
  }

  lemma SortedHas(p: Point, q: seq<Point>, sorted: seq<Point>, rest: seq<Point>, x: Point)
    requires multiset(sorted) == multiset(rest) && Kept(p, q, sorted) && x in rest
    ensures HasRay(p, q, x)
  {
    assert x in multiset(sorted);
    var i :| 0 <= i < |sorted| && sorted[i] == x;
    assert HasRay(p, q, sorted[i]);
  }

  lemma LineIs(points: seq<Point>, p: Point, q: seq<Point>)
    requires |q| <= 1 && forall i :: 0 <= i < |points| ==> points[i] == p || HasRay(p, q, points[i])
    ensures Collinear(points)
  {
    hide Cross, OnRay;
    forall i, j, k | 0 <= i < |points| && 0 <= j < |points| && 0 <= k < |points|
      ensures Cross(points[i], points[j], points[k]) == 0
    {
      SplitAt(p, points[i], points[j], points[k]);
      Level2(p, q, points[i], points[j]);
      Level2(p, q, points[j], points[k]);
      Level2(p, q, points[i], points[k]);
    }
  }

  lemma Level2(p: Point, q: seq<Point>, a: Point, b: Point)
    requires |q| <= 1 && (a == p || HasRay(p, q, a)) && (b == p || HasRay(p, q, b))
    ensures Cross(p, a, b) == 0
  {
    hide Cross, OnRay;
    Turns(p, a, b);
    Turns(p, b, a);
    if a != p && b != p {
      OneDirection(p, q[0], a, b);
    }
  }

  /** convexHull, lines 76-149. The output is the hull in clockwise order: a strictly convex polygon of
      input points that has every input point inside or on it. There is none only where all points are on
      one line. */
  method Hull(points: seq<Point>) returns (out: seq<Point>)
    requires points != []
    ensures out == [] <==> Collinear(points)
    ensures out != [] ==> |out| >= 3 && Convex(Reversed(out)) && forall k :: 0 <= k < |out| ==> out[k] in points
    ensures out != [] ==> forall i :: 0 <= i < |points| ==> Inside(Reversed(out), points[i])
  {
    hide *;
    var min: nat := Lowest(points);
    var p: Point := points[min];
    var rest: seq<Point> := points[min := points[0]][1..];
    forall x ensures x in points <==> x == p || x in rest {
      Others(points, min, x);
    }
    RestAbove(points, p, rest);
    var sorted := Qsort(p, rest);
    var q := Dedupe(p, sorted);
    forall x | x in rest ensures HasRay(p, q, x) {
      SortedHas(p, q, sorted, rest, x);
    }
    if 1 + |q| < 3 {
      LineIs(points, p, q);
      return [];
    }
    PivotRay(p, q);
    var s := Scan(p, q);
    out := Unstack(s);
    ReversedTwice(s);
    forall i | 0 <= i < |points| ensures Inside(s, points[i]) {
      HullInside(p, q, s, points[i]);
    }
    forall k | 0 <= k < |s| ensures s[k] in points {
      FromInput(points, p, rest, sorted, q, s, k);
    }
    NotCollinear(points, s);
  }

  lemma RestAbove(points: seq<Point>, p: Point, rest: seq<Point>)
    requires (forall k :: 0 <= k < |points| ==> Above(p, points[k])) && forall x :: x in rest ==> x in points
    ensures AllAbove(p, rest)
  {
    hide Above;
    forall i | 0 <= i < |rest| ensures Above(p, rest[i]) {
      assert rest[i] in points;
    }
  }

  lemma ReversedTwice(s: seq<Point>)
    ensures Reversed(Reversed(s)) == s && |Reversed(s)| == |s|
    ensures forall k :: 0 <= k < |s| ==> Reversed(s)[k] == s[|s| - 1 - k]
  {
  }

  lemma FromInput(points: seq<Point>, p: Point, rest: seq<Point>, sorted: seq<Point>, q: seq<Point>, s: seq<Point>,
                  k: nat)
    requires k < |s| && |s| >= 1 && s[0] == p && (forall k :: 1 <= k < |s| ==> s[k] in q)
    requires (forall k :: 0 <= k < |q| ==> q[k] in sorted)
    requires multiset(sorted) == multiset(rest) && forall x :: x in points <==> x == p || x in rest
    ensures s[k] in points
  {
    if k > 0 {
      assert s[k] in q;
      assert s[k] in multiset(sorted);
    }
  }

  lemma NotCollinear(points: seq<Point>, s: seq<Point>)
    requires |s| >= 3 && Convex(s) && forall k :: 0 <= k < |s| ==> s[k] in points
    ensures !Collinear(points)
  {
    hide Cross, Convex;
    assert s[0] in points && s[1] in points && s[2] in points;
    var i :| 0 <= i < |points| && points[i] == s[0];
    var j :| 0 <= j < |points| && points[j] == s[1];
    var k :| 0 <= k < |points| && points[k] == s[2];
    ConvexAt(s, 0, 1, 2);
    assert Cross(points[i], points[j], points[k]) > 0;
  }
}
