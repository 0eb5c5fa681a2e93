/** OctTile::FindHit of core/OctTile.cpp: the first occupied cell on a line through a tile's cells. */
module VoxelLine {
  import opened BitStreams
  import opened Bits

  /** TerrainTile::SquarePtsCt. */
  const TSZ: int := 256

  datatype Vec = Vec(x: int, y: int, z: int)

  /** The macro R, line 458. */
  function Clamp(v: int): (r: int)
    ensures 0 <= r < TSZ && (0 <= v < TSZ ==> r == v)
  {
    if v < 0 then 0 else if v > TSZ - 1 then TSZ - 1 else v
  }

  function Clamped(p: Vec): Vec
  {
    Vec(Clamp(p.x), Clamp(p.y), Clamp(p.z))
  }

  predicate InTile(p: Vec)
  {
    0 <= p.x < TSZ && 0 <= p.y < TSZ && 0 <= p.z < TSZ
  }

  /** Clamping takes a point to the cell of the tile that is nearest to it along each axis. */
  lemma ClampNearest(p: Vec, q: Vec)
    requires InTile(q)
    ensures var c := Clamped(p);
      && InTile(c) && (c == q || Distance(p, c) < Distance(p, q))
      && Abs(p.x - c.x) <= Abs(p.x - q.x) && Abs(p.y - c.y) <= Abs(p.y - q.y) && Abs(p.z - c.z) <= Abs(p.z - q.z)
  {
  }

  function Distance(p: Vec, q: Vec): nat
  {
    Abs(p.x - q.x) + Abs(p.y - q.y) + Abs(p.z - q.z)
  }

  /** The index of the macro checkhit, line 457. */
  function Index(p: Vec): (i: nat)
    requires InTile(p)
    ensures i < TSZ * TSZ * TSZ
  {
    p.y * TSZ * TSZ + p.z * TSZ + p.x
  }

  predicate Occupied(data: seq<byte>, p: Vec)
    requires |data| == TSZ * TSZ * TSZ && InTile(p)
  {
    Row(Layer(data, p.y), p.z)[p.x] > 0
  }

  /** The data of a tile is in 256 layers from the bottom up, and each layer in 256 rows. */
  function Layer(data: seq<byte>, y: int): (r: seq<byte>)
    requires |data| == TSZ * TSZ * TSZ && 0 <= y < TSZ
    ensures |r| == 65536
  {
    data[65536 * y..65536 * (y + 1)]
  }

  function Row(layer: seq<byte>, z: int): (r: seq<byte>)
    requires |layer| == 65536 && 0 <= z < TSZ
    ensures |r| == 256
  {
    layer[256 * z..256 * (z + 1)]
  }

  function Abs(v: int): nat
  {
    if v < 0 then -v else v
  }

  /** How many cells a minor axis with difference dv has moved after k of du steps of the driving axis: the
      ideal line, rounded to the nearest cell. */
  function Moved(k: nat, dv: nat, du: nat): nat
  {
    if du == 0 then 0 else (2 * (k * dv) + du) / (2 * du)
  }

  /** Never more than half a cell from the ideal line. */
  lemma MovedNearest(k: nat, dv: nat, du: nat)
    requires du >= 1
    ensures 2 * (k * dv) < 2 * (du * Moved(k, dv, du)) + du && 2 * (du * Moved(k, dv, du)) <= 2 * (k * dv) + du
  {
    var n, q := 2 * (k * dv) + du, Moved(k, dv, du);
    assert n == 2 * du * q + n % (2 * du);
    assert 2 * du * q == 2 * (du * q);
  }

  lemma MovedEnds(dv: nat, du: nat)
    requires dv <= du
    ensures Moved(0, dv, du) == 0 && Moved(du, dv, du) == dv
  {
    if du >= 1 {
      DivModUnique(du, 2 * du, 0, du);
      assert 2 * (du * dv) + du == (2 * du) * dv + du;
      DivModUnique(2 * (du * dv) + du, 2 * du, dv, du);
    }
  }

  /** The decision variable p tells whether the axis moves with the next step. */
  lemma MovedStep(k: nat, dv: nat, du: nat)
    requires dv <= du && du >= 1
    ensures Moved(k + 1, dv, du)
         == Moved(k, dv, du) + if 2 * ((k + 1) * dv) - du - 2 * (du * Moved(k, dv, du)) >= 0 then 1 else 0
  {
    var n, d := 2 * (k * dv) + du, 2 * du;
    NextQuotient(n, d, 2 * dv);
    assert (k + 1) * dv == k * dv + dv;
    assert d * (n / d) == 2 * (du * (n / d));
  }

  /** Adding no more than the divisor moves the quotient by at most one. */
  lemma NextQuotient(n: nat, d: nat, more: nat)
    requires d >= 1 && more <= d
    ensures (n + more) / d == n / d + if n + more - d * (n / d) >= d then 1 else 0
  {
    var q, r := n / d, n % d;
    assert n == d * q + r;
    if r + more >= d {
      assert d * (q + 1) == d * q + d;
      DivModUnique(n + more, d, q + 1, r + more - d);
    } else {
      DivModUnique(n + more, d, q, r + more);
    }
  }

  lemma {:induction false} MovedWithin(k: nat, dv: nat, du: nat)
    requires dv <= du && k <= du
    ensures Moved(k, dv, du) <= dv
    decreases du - k
  {
    hide Moved;
    if k == du {
      MovedEnds(dv, du);
    } else {
      MovedWithin(k + 1, dv, du);
      MovedStep(k, dv, du);
    }
  }

  /** Which axis drives: lines 488, 511 and 533. */
  datatype Axis = X | Y | Z

  function Driving(dx: nat, dy: nat, dz: nat): Axis
  {
    if dx >= dy && dx >= dz then X else if dy >= dx && dy >= dz then Y else Z
  }

  /** A point with its driving coordinate first, in the order of the three loops. */
  function Turned(a: Axis, p: Vec): Vec
  {
    match a
    case X => p
    case Y => Vec(p.y, p.x, p.z)
    case Z => Vec(p.z, p.y, p.x)
  }

  /** And back. */
  lemma TurnedTwice(a: Axis, p: Vec)
    ensures Turned(a, Turned(a, p)) == p && (InTile(Turned(a, p)) <==> InTile(p))
  {
  }

  function Sign(from: int, to: int): int
  {
    if to > from then 1 else -1
  }

  /** Cell k of the line from a to b with the first axis driving. */
  function Cell(a: Vec, b: Vec, k: nat): Vec
  {
    var du, dv, dw := Abs(b.x - a.x), Abs(b.y - a.y), Abs(b.z - a.z);
    Vec(a.x + Sign(a.x, b.x) * k, a.y + Sign(a.y, b.y) * Moved(k, dv, du), a.z + Sign(a.z, b.z) * Moved(k, dw, du))
  }

  predicate Drives(a: Vec, b: Vec)
  {
    Abs(b.y - a.y) <= Abs(b.x - a.x) && Abs(b.z - a.z) <= Abs(b.x - a.x)
  }

  predicate Between(v: int, a: int, b: int)
  {
    a <= v <= b || b <= v <= a
  }

  /** The line runs from a to b inside the box that they span. */
  lemma CellsInBox(a: Vec, b: Vec, k: nat)
    requires Drives(a, b) && k <= Abs(b.x - a.x)
    ensures Cell(a, b, 0) == a && Cell(a, b, Abs(b.x - a.x)) == b
    ensures Between(Cell(a, b, k).x, a.x, b.x) && Between(Cell(a, b, k).y, a.y, b.y)
    ensures Between(Cell(a, b, k).z, a.z, b.z)
  {
    hide Moved;
    var du, dv, dw := Abs(b.x - a.x), Abs(b.y - a.y), Abs(b.z - a.z);
    MovedEnds(dv, du);
    MovedEnds(dw, du);
    MovedWithin(k, dv, du);
    MovedWithin(k, dw, du);
  }

  /** From one cell to the next every coordinate moves by at most one: the line has no gaps. */
  lemma CellsConnected(a: Vec, b: Vec, k: nat)
    requires Drives(a, b) && k < Abs(b.x - a.x)
    ensures var p, q := Cell(a, b, k), Cell(a, b, k + 1);
      Abs(q.x - p.x) == 1 && Abs(q.y - p.y) <= 1 && Abs(q.z - p.z) <= 1
  {
    hide Moved;
    var du, dv, dw := Abs(b.x - a.x), Abs(b.y - a.y), Abs(b.z - a.z);
    MovedStep(k, dv, du);
    MovedStep(k, dw, du);
  }

  /** The hit is the first occupied cell of the line, and there is none before it. */
  ghost predicate FirstHit(data: seq<byte>, axis: Axis, a: Vec, b: Vec, hit: Vec)
    requires |data| == TSZ * TSZ * TSZ
  {
    exists k: nat :: k <= Abs(b.x - a.x) && hit == Turned(axis, Cell(a, b, k)) && InTile(hit) && Occupied(data, hit)
      && Clear(data, axis, a, b, k)
  }

  /** The cells before cell k are in the tile and empty. */
  ghost predicate Clear(data: seq<byte>, axis: Axis, a: Vec, b: Vec, k: nat)
    requires |data| == TSZ * TSZ * TSZ
  {
    forall j: nat :: j < k ==> InTile(Turned(axis, Cell(a, b, j))) && !Occupied(data, Turned(axis, Cell(a, b, j)))
  }

  lemma CellInTile(axis: Axis, a: Vec, b: Vec, k: nat)
    requires InTile(a) && InTile(b) && Drives(a, b) && k <= Abs(b.x - a.x)
    ensures InTile(Turned(axis, Cell(a, b, k)))
  {
    hide Cell;
    CellsInBox(a, b, k);
  }

  /** The value of p1 or p2 after k steps. */
  function Decision(k: nat, dv: nat, du: nat): int
  {
    2 * ((k + 1) * dv) - du - 2 * (du * Moved(k, dv, du))
  }

  lemma DecisionStep(k: nat, dv: nat, du: nat)
    requires dv <= du && du >= 1
    ensures Moved(k + 1, dv, du) == Moved(k, dv, du) + if Decision(k, dv, du) >= 0 then 1 else 0
    ensures Decision(k + 1, dv, du) == Decision(k, dv, du) + 2 * dv - if Decision(k, dv, du) >= 0 then 2 * du else 0
  {
    hide Moved;
    MovedStep(k, dv, du);
    var q := Moved(k, dv, du);
    assert (k + 2) * dv == (k + 1) * dv + dv;
    assert du * (q + 1) == du * q + du;
  }

  lemma DecisionStart(dv: nat, du: nat)
    requires dv <= du
    ensures Decision(0, dv, du) == 2 * dv - du
  {
    MovedEnds(dv, du);
  }

  /** The next cell, from the two decisions. */
  lemma CellStep(a: Vec, b: Vec, k: nat)
    requires Drives(a, b) && k < Abs(b.x - a.x)
    ensures var du, dv, dw := Abs(b.x - a.x), Abs(b.y - a.y), Abs(b.z - a.z);
      && var v, w := if Decision(k, dv, du) >= 0 then 1 else 0, if Decision(k, dw, du) >= 0 then 1 else 0;
      && var p := Cell(a, b, k);
      Cell(a, b, k + 1) == Vec(p.x + Sign(a.x, b.x), p.y + v * Sign(a.y, b.y), p.z + w * Sign(a.z, b.z))
  {
    hide Moved, Decision;
    DecisionStep(k, Abs(b.y - a.y), Abs(b.x - a.x));
    DecisionStep(k, Abs(b.z - a.z), Abs(b.x - a.x));
  }

  lemma DriveEnds(a: Vec, b: Vec, k: nat)
    requires Drives(a, b) && k <= Abs(b.x - a.x)
    ensures Cell(a, b, 0) == a && (Cell(a, b, k).x == b.x <==> k == Abs(b.x - a.x))
    ensures Abs(b.y - a.y) <= Abs(b.x - a.x) && Abs(b.z - a.z) <= Abs(b.x - a.x)
  {
    hide Moved;
    MovedEnds(Abs(b.y - a.y), Abs(b.x - a.x));
    MovedEnds(Abs(b.z - a.z), Abs(b.x - a.x));
  }

  /** One of the three loops, lines 490-508, 513-529 and 535-550: u drives, v and w follow. */
  method Walk(data: seq<byte>, axis: Axis, a: Vec, b: Vec) returns (hit: Vec, found: bool)
    requires |data| == TSZ * TSZ * TSZ && InTile(a) && InTile(b) && Drives(a, b)
    requires Clear(data, axis, a, b, 1)
    ensures found ==> FirstHit(data, axis, a, b, hit)
    ensures !found ==> Clear(data, axis, a, b, Abs(b.x - a.x) + 1)
  {
    hide *;
    var du: nat, dv: nat, dw: nat := Abs(b.x - a.x), Abs(b.y - a.y), Abs(b.z - a.z);
    var us, vs, ws := Sign(a.x, b.x), Sign(a.y, b.y), Sign(a.z, b.z);
    var u, v, w := a.x, a.y, a.z;
    var p1, p2 := 2 * dv - du, 2 * dw - du;
    ghost var k: nat := 0;
    DriveEnds(a, b, 0);
    DecisionStart(dv, du);
    DecisionStart(dw, du);
    while u != b.x
      invariant k <= du && Vec(u, v, w) == Cell(a, b, k) && Clear(data, axis, a, b, k + 1)
      invariant p1 == Decision(k, dv, du) && p2 == Decision(k, dw, du)
      decreases du - k
    {
      DriveEnds(a, b, k);
      DecisionStep(k, dv, du);
      DecisionStep(k, dw, du);
      CellStep(a, b, k);
      u := u + us;
      if p1 >= 0 {
        v := v + vs;
        p1 := p1 - 2 * du;
      }
      if p2 >= 0 {
        w := w + ws;
        p2 := p2 - 2 * du;
      }
      p1 := p1 + 2 * dv;
      p2 := p2 + 2 * dw;
      k := k + 1;
      CellInTile(axis, a, b, k);
      hit := Turned(axis, Vec(u, v, w));
      OccupiedIs(data, hit);
      if data[Index(hit)] > 0 {
        MakeFirst(data, axis, a, b, k);
        return hit, true;
      }
      ClearMore(data, axis, a, b, k);
    }
    DriveEnds(a, b, k);
    return Vec(-1, -1, -1), false;
  }

  lemma OccupiedIs(data: seq<byte>, p: Vec)
    requires |data| == TSZ * TSZ * TSZ && InTile(p)
    ensures Index(p) < |data| && (Occupied(data, p) <==> data[Index(p)] > 0)
  {
  }

  lemma MakeFirst(data: seq<byte>, axis: Axis, a: Vec, b: Vec, k: nat)
    requires |data| == TSZ * TSZ * TSZ && k <= Abs(b.x - a.x) && Clear(data, axis, a, b, k)
    requires InTile(Turned(axis, Cell(a, b, k))) && Occupied(data, Turned(axis, Cell(a, b, k)))
    ensures FirstHit(data, axis, a, b, Turned(axis, Cell(a, b, k)))
  {
    hide Cell, Clear, Turned;
  }

  lemma ClearMore(data: seq<byte>, axis: Axis, a: Vec, b: Vec, k: nat)
    requires |data| == TSZ * TSZ * TSZ && Clear(data, axis, a, b, k)
    requires InTile(Turned(axis, Cell(a, b, k))) && !Occupied(data, Turned(axis, Cell(a, b, k)))
    ensures Clear(data, axis, a, b, k + 1)
  {
    hide Cell, Turned;
  }

  lemma ClearOne(data: seq<byte>, axis: Axis, a: Vec, b: Vec)
    requires |data| == TSZ * TSZ * TSZ && InTile(a) && InTile(b) && Drives(a, b) && !Occupied(data, Turned(axis, a))
    ensures Clear(data, axis, a, b, 1)
  {
    hide Cell;
    CellsInBox(a, b, 0);
  }

  /** The axis along which the two points, brought into the tile, are farthest apart. */
  function DrivingAxis(pt1: Vec, pt2: Vec): Axis
  {
    var p, q := Clamped(pt1), Clamped(pt2);
    Driving(Abs(q.x - p.x), Abs(q.y - p.y), Abs(q.z - p.z))
  }

  /** FindHit, lines 460-553: along the line between the two points, brought into the tile, the first
      occupied cell, or (-1, -1, -1) where every cell of it is empty. */
  method FindHit(data: seq<byte>, pt1: Vec, pt2: Vec) returns (hit: Vec)
    requires |data| == TSZ * TSZ * TSZ
    ensures var axis := DrivingAxis(pt1, pt2);
      && var a, b := Turned(axis, Clamped(pt1)), Turned(axis, Clamped(pt2));
      && Drives(a, b)
      && if hit == Vec(-1, -1, -1) then Clear(data, axis, a, b, Abs(b.x - a.x) + 1) else FirstHit(data, axis, a, b, hit)
  {
    hide *;
    var p, q := Clamped(pt1), Clamped(pt2);
    var axis := Driving(Abs(q.x - p.x), Abs(q.y - p.y), Abs(q.z - p.z));
    var a, b := Turned(axis, p), Turned(axis, q);
    ClampedTurns(pt1, pt2);
    OccupiedIs(data, p);
    TurnedTwice(axis, p);
    if data[Index(p)] > 0 {
      DriveEnds(a, b, 0);
      NoneBefore(data, axis, a, b);
      MakeFirst(data, axis, a, b, 0);
      NotNowhere(p);
      return p;
    }
    ClearOne(data, axis, a, b);
    var found: bool;
    hit, found := Walk(data, axis, a, b);
    if found {
      HitInTile(data, axis, a, b, hit);
      NotNowhere(hit);
    } else {
      hit := Vec(-1, -1, -1);
    }
  }

  /** Whatever the points, they end up in the tile, and the axis that drives moves most. */
  lemma ClampedTurns(pt1: Vec, pt2: Vec)
    ensures var p, q := Clamped(pt1), Clamped(pt2);
      && var turn := Driving(Abs(q.x - p.x), Abs(q.y - p.y), Abs(q.z - p.z));
      && InTile(p) && InTile(Turned(turn, p)) && InTile(Turned(turn, q)) && Drives(Turned(turn, p), Turned(turn, q))
      && turn == DrivingAxis(pt1, pt2)
  {
    hide *;
    var p, q := Clamped(pt1), Clamped(pt2);
    ClampedIn(pt1);
    ClampedIn(pt2);
    AxisIs(pt1, pt2);
    TurnDrives(p, q);
    TurnedTwice(Driving(Abs(q.x - p.x), Abs(q.y - p.y), Abs(q.z - p.z)), p);
    TurnedTwice(Driving(Abs(q.x - p.x), Abs(q.y - p.y), Abs(q.z - p.z)), q);
  }

  lemma AxisIs(pt1: Vec, pt2: Vec)
    ensures var p, q := Clamped(pt1), Clamped(pt2);
      DrivingAxis(pt1, pt2) == Driving(Abs(q.x - p.x), Abs(q.y - p.y), Abs(q.z - p.z))
  {
    hide Clamped, Driving, Abs;
  }

  lemma ClampedIn(p: Vec)
    ensures InTile(Clamped(p))
  {
  }

  lemma TurnDrives(p: Vec, q: Vec)
    ensures var turn := Driving(Abs(q.x - p.x), Abs(q.y - p.y), Abs(q.z - p.z));
      Drives(Turned(turn, p), Turned(turn, q))
  {
  }

  lemma NotNowhere(p: Vec)
    requires InTile(p)
    ensures p != Vec(-1, -1, -1)
  {
  }

  lemma NoneBefore(data: seq<byte>, axis: Axis, a: Vec, b: Vec)
    requires |data| == TSZ * TSZ * TSZ
    ensures Clear(data, axis, a, b, 0)
  {
  }

  lemma HitInTile(data: seq<byte>, axis: Axis, a: Vec, b: Vec, hit: Vec)
    requires |data| == TSZ * TSZ * TSZ && FirstHit(data, axis, a, b, hit)
    ensures InTile(hit)
  {
  }
}
