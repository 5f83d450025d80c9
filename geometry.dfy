/**
 Shared constants of the game: the world's half-width, the tick rate, the six
 face directions of a block, and the vertex list of a cube.
 */
module Geometry {

  /** An integer block position (x, y, z); y is the vertical axis. */
  type Pos = (int, int, int)

  /** A point of space with exact real coordinates. */
  type Vec = (real, real, real)

  /** Half the width of the world, in blocks. */
  const WORLD_SIZE: int := 160

  /** Frames per second the game loop aims for. */
  const TICKS_PER_SEC: int := 60

  /** The six face directions: up, down, -x, +x, +z, -z. */
  const FACES: seq<Pos> := [(0, 1, 0), (0, -1, 0), (-1, 0, 0), (1, 0, 0), (0, 0, 1), (0, 0, -1)]

  /** Coordinate `i` (0, 1 or 2) of a position. */
  function Axis(p: Pos, i: int): int
    requires 0 <= i < 3
  {
    if i == 0 then p.0 else if i == 1 then p.1 else p.2
  }

  /** The position one step from `p` through face `k`. */
  function Neighbor(p: Pos, k: int): (q: Pos)
    requires 0 <= k < 6
    ensures q != p
    ensures forall i :: 0 <= i < 3 ==> Axis(q, i) == Axis(p, i) + Axis(FACES[k], i)
  {
    (p.0 + FACES[k].0, p.1 + FACES[k].1, p.2 + FACES[k].2)
  }

  /** The index of the face pointing the other way. */
  function Opposite(k: int): (j: int)
    requires 0 <= k < 6
    ensures 0 <= j < 6 && j != k
  {
    if k % 2 == 0 then k + 1 else k - 1
  }

  /** A unit step along exactly one axis. */
  predicate UnitAxis(f: Pos)
  {
    || ((f.0 == 1 || f.0 == -1) && f.1 == 0 && f.2 == 0)
    || (f.0 == 0 && (f.1 == 1 || f.1 == -1) && f.2 == 0)
    || (f.0 == 0 && f.1 == 0 && (f.2 == 1 || f.2 == -1))
  }

  /** The faces are six distinct unit axis steps, so together they cover +-x, +-y and +-z. */
  lemma FacesAreAxes()
    ensures |FACES| == 6
    ensures forall k :: 0 <= k < 6 ==> UnitAxis(FACES[k])
    ensures forall j, k :: 0 <= j < k < 6 ==> FACES[j] != FACES[k]
  {
  }

  /** Stepping through a face and back through its opposite returns to the start. */
  lemma NeighborOpposite(p: Pos, k: int)
    requires 0 <= k < 6
    ensures FACES[Opposite(k)] == (-FACES[k].0, -FACES[k].1, -FACES[k].2)
    ensures Neighbor(Neighbor(p, k), Opposite(k)) == p
  {
  }

  /** The six neighbours of a position are pairwise distinct. */
  lemma NeighborsDistinct(p: Pos)
    ensures forall j, k :: 0 <= j < 6 && 0 <= k < 6 && j != k ==> Neighbor(p, j) != Neighbor(p, k)
  {
  }

  /**
   The sign pattern of each vertex of a cube, face by face: four vertices of
   the top face, then bottom, left, right, front and back.
   */
  const CUBE_CORNERS: seq<Pos> := [
    (-1, 1, -1), (-1, 1, 1), (1, 1, 1), (1, 1, -1),
    (-1, -1, -1), (1, -1, -1), (1, -1, 1), (-1, -1, 1),
    (-1, -1, -1), (-1, -1, 1), (-1, 1, 1), (-1, 1, -1),
    (1, -1, 1), (1, -1, -1), (1, 1, -1), (1, 1, 1),
    (-1, -1, 1), (1, -1, 1), (1, 1, 1), (-1, 1, 1),
    (1, -1, -1), (-1, -1, -1), (-1, 1, -1), (1, 1, -1)]

  /** The point at sign pattern `c` of the cube of half-size `n` centred at (x, y, z). */
  function CornerPoint(x: real, y: real, z: real, n: real, c: Pos): Vec
  {
    (x + c.0 as real * n, y + c.1 as real * n, z + c.2 as real * n)
  }

  /** The coordinates of corners `cs` of that cube, flattened. */
  function CornerCoords(x: real, y: real, z: real, n: real, cs: seq<Pos>): seq<real>
  {
    if cs == [] then []
    else
      var p := CornerPoint(x, y, z, n, cs[0]);
      [p.0, p.1, p.2] + CornerCoords(x, y, z, n, cs[1..])
  }

  /** The vertex list of the cube of half-size `n` centred at (x, y, z): 24 vertices, 3 numbers each. */
  function CubeVertices(x: real, y: real, z: real, n: real): seq<real>
  {
    CornerCoords(x, y, z, n, CUBE_CORNERS)
  }

  /** Vertex `i` of a flattened vertex list. */
  function Vertex(r: seq<real>, i: int): Vec
    requires 0 <= i && 3 * i + 2 < |r|
  {
    (r[3 * i], r[3 * i + 1], r[3 * i + 2])
  }

  lemma {:induction false} CornerCoordsLength(x: real, y: real, z: real, n: real, cs: seq<Pos>)
    ensures |CornerCoords(x, y, z, n, cs)| == 3 * |cs|
  {
    if cs != [] {
      CornerCoordsLength(x, y, z, n, cs[1..]);
    }
  }

  lemma {:induction false} CornerCoordsAt(x: real, y: real, z: real, n: real, cs: seq<Pos>, i: int)
    requires 0 <= i < |cs|
    ensures |CornerCoords(x, y, z, n, cs)| == 3 * |cs|
    ensures Vertex(CornerCoords(x, y, z, n, cs), i) == CornerPoint(x, y, z, n, cs[i])
  {
    CornerCoordsLength(x, y, z, n, cs);
    var p := CornerPoint(x, y, z, n, cs[0]);
    var tail := CornerCoords(x, y, z, n, cs[1..]);
    var r := CornerCoords(x, y, z, n, cs);
    assert r == [p.0, p.1, p.2] + tail;
    if i > 0 {
      CornerCoordsAt(x, y, z, n, cs[1..], i - 1);
      assert cs[1..][i - 1] == cs[i];
      assert r[3 * i] == tail[3 * (i - 1)];
      assert r[3 * i + 1] == tail[3 * (i - 1) + 1];
      assert r[3 * i + 2] == tail[3 * (i - 1) + 2];
    } else {
      assert r[0] == p.0 && r[1] == p.1 && r[2] == p.2;
    }
  }

  /** Every corner is a sign pattern; the top face's corners have y-sign +1, the bottom face's -1. */
  lemma CornersAreSigns()
    ensures |CUBE_CORNERS| == 24
    ensures forall i :: 0 <= i < 24 ==>
      (CUBE_CORNERS[i].0 == 1 || CUBE_CORNERS[i].0 == -1) &&
      (CUBE_CORNERS[i].1 == 1 || CUBE_CORNERS[i].1 == -1) &&
      (CUBE_CORNERS[i].2 == 1 || CUBE_CORNERS[i].2 == -1)
    ensures forall i :: 0 <= i < 4 ==> CUBE_CORNERS[i].1 == 1
    ensures forall i :: 4 <= i < 8 ==> CUBE_CORNERS[i].1 == -1
  {
  }

  /** `v` is the centre coordinate `c` shifted by `n` one way or the other. */
  predicate PlusMinus(v: real, c: real, n: real)
  {
    v == c - n || v == c + n
  }

  /** Corners given by sign patterns lie at their centre coordinate plus or minus `n`. */
  lemma CornerCoordsOnCube(x: real, y: real, z: real, n: real, cs: seq<Pos>)
    requires forall i :: 0 <= i < |cs| ==>
      (cs[i].0 == 1 || cs[i].0 == -1) && (cs[i].1 == 1 || cs[i].1 == -1) && (cs[i].2 == 1 || cs[i].2 == -1)
    ensures |CornerCoords(x, y, z, n, cs)| == 3 * |cs|
    ensures forall i :: 0 <= i < |cs| ==>
      PlusMinus(Vertex(CornerCoords(x, y, z, n, cs), i).0, x, n) &&
      PlusMinus(Vertex(CornerCoords(x, y, z, n, cs), i).1, y, n) &&
      PlusMinus(Vertex(CornerCoords(x, y, z, n, cs), i).2, z, n)
    ensures forall i :: 0 <= i < |cs| && cs[i].1 == 1 ==> Vertex(CornerCoords(x, y, z, n, cs), i).1 == y + n
    ensures forall i :: 0 <= i < |cs| && cs[i].1 == -1 ==> Vertex(CornerCoords(x, y, z, n, cs), i).1 == y - n
  {
    CornerCoordsLength(x, y, z, n, cs);
    forall i | 0 <= i < |cs|
      ensures PlusMinus(Vertex(CornerCoords(x, y, z, n, cs), i).0, x, n)
      ensures PlusMinus(Vertex(CornerCoords(x, y, z, n, cs), i).1, y, n)
      ensures PlusMinus(Vertex(CornerCoords(x, y, z, n, cs), i).2, z, n)
      ensures cs[i].1 == 1 ==> Vertex(CornerCoords(x, y, z, n, cs), i).1 == y + n
      ensures cs[i].1 == -1 ==> Vertex(CornerCoords(x, y, z, n, cs), i).1 == y - n
    {
      CornerCoordsAt(x, y, z, n, cs, i);
      SignedStep(x, cs[i].0, n);
      SignedStep(y, cs[i].1, n);
      SignedStep(z, cs[i].2, n);
    }
  }

  /**
   The cube has 72 numbers; every vertex coordinate is its centre coordinate
   plus or minus `n`; the top face's four vertices lie at y + n and the bottom
   face's four at y - n.
   */
  lemma CubeVerticesShape(x: real, y: real, z: real, n: real)
    ensures |CubeVertices(x, y, z, n)| == 72
    ensures forall i :: 0 <= i < 24 ==>
      PlusMinus(Vertex(CubeVertices(x, y, z, n), i).0, x, n) &&
      PlusMinus(Vertex(CubeVertices(x, y, z, n), i).1, y, n) &&
      PlusMinus(Vertex(CubeVertices(x, y, z, n), i).2, z, n)
    ensures forall i :: 0 <= i < 4 ==> Vertex(CubeVertices(x, y, z, n), i).1 == y + n
    ensures forall i :: 4 <= i < 8 ==> Vertex(CubeVertices(x, y, z, n), i).1 == y - n
  {
    CornersAreSigns();
    CornerCoordsOnCube(x, y, z, n, CUBE_CORNERS);
  }

  lemma SignedStep(c: real, s: int, n: real)
    requires s == 1 || s == -1
    ensures PlusMinus(c + s as real * n, c, n)
    ensures s == 1 ==> c + s as real * n == c + n
    ensures s == -1 ==> c + s as real * n == c - n
  {
  }

  /**
   The square of `d`, summed up as the first |d| odd numbers so that the
   distance tests of the game (the disk of shown sectors, the round
   patches of hills and clouds) are linear arithmetic for the verifier.
   */
  function Square(d: int): nat
    decreases if d < 0 then 1 - d else d
  {
    if d < 0 then Square(-d) else if d == 0 then 0 else Square(d - 1) + 2 * d - 1
  }

  /** `Square` is the product the game computes. */
  lemma {:induction false} SquareIsProduct(d: int)
    ensures Square(d) == d * d
    decreases if d < 0 then 1 - d else d
  {
    if d < 0 {
      SquareIsProduct(-d);
    } else if d > 0 {
      SquareIsProduct(d - 1);
    }
  }
}
