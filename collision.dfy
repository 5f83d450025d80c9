/**
 Collisions between the player and the blocks of the world, and the ray
 march that finds the block the player is looking at. Both only read the
 world; coordinates are exact reals.
 */
module Collision {
  import opened Blocks
  import opened Geometry
  import opened Grid
  import opened Options

  /** The player can stand in a cell that is empty or holds a block that is not collidable. */
  predicate CanPassThrough(world: map<Pos, Block>, c: Pos)
  {
    c !in world || !world[c].isCollidable
  }

  /** Clouds and leaves never stop the player; stone, grass and brick always do. */
  lemma PassableKinds(world: map<Pos, Block>, c: Pos)
    ensures c in world && world[c] in {LIGHT_CLOUD, DARK_CLOUD, TREE_LEAVES} ==> CanPassThrough(world, c)
    ensures c in world && world[c] in {GRASS, SAND, BRICK, STONE, TREE_TRUNK} ==> !CanPassThrough(world, c)
  {
    CatalogFlags();
  }

  // ---------------------------------------------------------------- collide

  /**
   How far into a neighbouring block's face the player may reach before it
   counts as a collision.
   */
  const PAD: real := 0.25

  /** Coordinate `i` of a point. */
  function Coord(v: Vec, i: int): real
    requires 0 <= i < 3
  {
    if i == 0 then v.0 else if i == 1 then v.1 else v.2
  }

  /** The point with coordinate `i` replaced by `x`. */
  function WithCoord(v: Vec, i: int, x: real): (w: Vec)
    requires 0 <= i < 3
    ensures Coord(w, i) == x
    ensures forall j :: 0 <= j < 3 && j != i ==> Coord(w, j) == Coord(v, j)
  {
    if i == 0 then (x, v.1, v.2) else if i == 1 then (v.0, x, v.2) else (v.0, v.1, x)
  }

  /** The position with coordinate `i` replaced by `x`. */
  function WithAxis(p: Pos, i: int, x: int): (q: Pos)
    requires 0 <= i < 3
    ensures Axis(q, i) == x
    ensures forall j :: 0 <= j < 3 && j != i ==> Axis(q, j) == Axis(p, j)
  {
    if i == 0 then (x, p.1, p.2) else if i == 1 then (p.0, x, p.2) else (p.0, p.1, x)
  }

  /**
   The cell tested for face `k` along axis `i` at level `dy` of the player's
   body: the player's block lowered by `dy`, then moved one step along axis `i`
   in the face's direction.
   */
  function TestedCell(np: Pos, k: int, i: int, dy: int): Pos
    requires 0 <= k < 6 && 0 <= i < 3
  {
    var lowered := (np.0, np.1 - dy, np.2);
    WithAxis(lowered, i, Axis(lowered, i) + Axis(FACES[k], i))
  }

  /** Some level of the player's body meets a block that stops it beyond face `k`, axis `i`. */
  predicate Blocked(world: map<Pos, Block>, np: Pos, k: int, i: int, height: int)
    requires 0 <= k < 6 && 0 <= i < 3
  {
    exists dy :: 0 <= dy < height && !CanPassThrough(world, TestedCell(np, k, i, dy))
  }

  /** `x` times the face component `f`, which is -1, 0 or 1, written without a product. */
  function Signed(x: real, f: int): real
  {
    if f > 0 then x else if f < 0 then -x else 0.0
  }

  /** For a face component, `Signed` is the product the game computes. */
  lemma SignedIsProduct(x: real, f: int)
    requires -1 <= f <= 1
    ensures Signed(x, f) == x * f as real
  {
    if f == 0 {
      assert x * f as real == x * 0.0;
    }
  }

  /** How far point `p` reaches past the centre of its block `np` towards face `k` along axis `i`. */
  function Overlap(p: Vec, np: Pos, k: int, i: int): real
    requires 0 <= k < 6 && 0 <= i < 3
  {
    Signed(Coord(p, i) - Axis(np, i) as real, Axis(FACES[k], i))
  }

  /** Face `k` along axis `i` forces a correction of `p`. */
  predicate Corrects(world: map<Pos, Block>, p: Vec, np: Pos, k: int, i: int, height: int)
    requires 0 <= k < 6 && 0 <= i < 3
  {
    Axis(FACES[k], i) != 0 && Overlap(p, np, k, i) >= PAD && Blocked(world, np, k, i, height)
  }

  /**
   One check of collide, for face `k` along axis `i`: when the face points
   along that axis, the overlap reaches the pad and a block stops the player,
   the player is pushed back along axis `i` alone until the overlap is exactly
   the pad; the flag says the vertical speed is to be reset, which happens for
   the two vertical faces only.
   */
  function FaceCheck(world: map<Pos, Block>, p: Vec, np: Pos, k: int, i: int, height: int): (r: (Vec, bool))
    requires 0 <= k < 6 && 0 <= i < 3
    ensures !Corrects(world, p, np, k, i, height) ==> r == (p, false)
    ensures Corrects(world, p, np, k, i, height) ==> Overlap(r.0, np, k, i) == PAD
    ensures forall j :: 0 <= j < 3 && j != i ==> Coord(r.0, j) == Coord(p, j)
    ensures r.1 <==> Corrects(world, p, np, k, i, height) && (k == 0 || k == 1)
  {
    var f := Axis(FACES[k], i);
    if f == 0 then (p, false)
    else
      var d := Overlap(p, np, k, i);
      if d < PAD || !Blocked(world, np, k, i, height) then (p, false)
      else
        assert f == 1 || f == -1 by { FacesAreAxes(); }
        var x := Coord(p, i) - Signed(d - PAD, f);
        (WithCoord(p, i, x), FACES[k] == (0, -1, 0) || FACES[k] == (0, 1, 0))
  }

  /**
   The first `i` axis checks of face `k`, applied one after the other to the
   point of `start`; the flag is raised when one of them asked for a
   vertical-speed reset, and kept when `start` already had it.
   */
  function AxesUpTo(world: map<Pos, Block>, start: (Vec, bool), np: Pos, height: int, k: int, i: int): (Vec, bool)
    requires 0 <= k < 6 && 0 <= i <= 3
  {
    if i == 0 then start
    else
      var prev := AxesUpTo(world, start, np, height, k, i - 1);
      var step := FaceCheck(world, prev.0, np, k, i - 1, height);
      (step.0, prev.1 || step.1)
  }

  /** The checks of the first `k` faces, each along the three axes, starting from `p` with no reset. */
  function FacesUpTo(world: map<Pos, Block>, p: Vec, np: Pos, height: int, k: int): (Vec, bool)
    requires 0 <= k <= 6
  {
    if k == 0 then (p, false)
    else AxesUpTo(world, FacesUpTo(world, p, np, height, k - 1), np, height, k - 1, 3)
  }

  /**
   The position the player ends up at when trying to be at `position` with
   a body `height` blocks tall, and whether its vertical speed is reset.
   */
  function Collide(world: map<Pos, Block>, position: Vec, height: int): (Vec, bool)
  {
    FacesUpTo(world, position, Normalize(position), height, 6)
  }

  /** The point as check `i` of face `k` finds it, after every check before it. */
  function PointBefore(world: map<Pos, Block>, p: Vec, np: Pos, height: int, k: int, i: int): Vec
    requires 0 <= k < 6 && 0 <= i < 3
  {
    AxesUpTo(world, FacesUpTo(world, p, np, height, k), np, height, k, i).0
  }

  /** No check forces a correction on the unchanged point. */
  predicate Free(world: map<Pos, Block>, p: Vec, np: Pos, height: int)
  {
    forall k, i :: 0 <= k < 6 && 0 <= i < 3 ==> !Corrects(world, p, np, k, i, height)
  }

  /** Axis checks of face `k` that force nothing on the point of `start` leave `start` as it is. */
  lemma {:induction false} AxesUpToFree(world: map<Pos, Block>, start: (Vec, bool), np: Pos, height: int, k: int, i: int)
    requires 0 <= k < 6 && 0 <= i <= 3
    requires forall a :: 0 <= a < i ==> !Corrects(world, start.0, np, k, a, height)
    ensures AxesUpTo(world, start, np, height, k, i) == start
  {
    if i > 0 {
      AxesUpToFree(world, start, np, height, k, i - 1);
    }
  }

  /**
   Once the first `s` faces have brought the point to `q` with no reset,
   faces that force nothing on `q` leave it there.
   */
  lemma {:induction false} FacesUpToFree(world: map<Pos, Block>, p: Vec, np: Pos, height: int, s: int, t: int, q: Vec)
    requires 0 <= s <= t <= 6
    requires FacesUpTo(world, p, np, height, s) == (q, false)
    requires forall j, a :: s <= j < t && 0 <= a < 3 ==> !Corrects(world, q, np, j, a, height)
    ensures FacesUpTo(world, p, np, height, t) == (q, false)
    decreases t - s
  {
    if t > s {
      FacesUpToFree(world, p, np, height, s, t - 1, q);
      AxesUpToFree(world, (q, false), np, height, t - 1, 3);
    }
  }

  /** When every tested cell lets the player through, collide returns its input unchanged. */
  lemma CollideUnblocked(world: map<Pos, Block>, position: Vec, height: int)
    requires forall k, i, dy :: 0 <= k < 6 && 0 <= i < 3 && 0 <= dy < height ==>
      CanPassThrough(world, TestedCell(Normalize(position), k, i, dy))
    ensures Collide(world, position, height) == (position, false)
  {
    FacesUpToFree(world, position, Normalize(position), height, 0, 6, position);
  }

  /** In particular, in an empty world nothing collides. */
  lemma CollideEmptyWorld(position: Vec, height: int)
    ensures Collide(map[], position, height) == (position, false)
  {
    CollideUnblocked(map[], position, height);
  }

  /**
   Within face `k`, the flag is raised exactly when it was already, or the
   face is one of the two vertical ones and one of its axis checks forced a
   correction.
   */
  lemma {:induction false} AxesResets(world: map<Pos, Block>, start: (Vec, bool), np: Pos, height: int, k: int, i: int)
    requires 0 <= k < 6 && 0 <= i <= 3
    ensures AxesUpTo(world, start, np, height, k, i).1 <==>
      start.1 || ((k == 0 || k == 1) &&
        exists a :: 0 <= a < i && Corrects(world, AxesUpTo(world, start, np, height, k, a).0, np, k, a, height))
  {
    if i > 0 {
      AxesResets(world, start, np, height, k, i - 1);
    }
  }

  /**
   The vertical speed is reset exactly when one of the two vertical faces
   forced a correction on the point as it found it.
   */
  lemma {:induction false} CollideResetsOnVerticalFaces(world: map<Pos, Block>, p: Vec, np: Pos, height: int, k: int)
    requires 0 <= k <= 6
    ensures FacesUpTo(world, p, np, height, k).1 <==>
      exists j, a :: 0 <= j < k && j < 2 && 0 <= a < 3 && Corrects(world, PointBefore(world, p, np, height, j, a), np, j, a, height)
  {
    if k > 0 {
      var pre := FacesUpTo(world, p, np, height, k - 1);
      CollideResetsOnVerticalFaces(world, p, np, height, k - 1);
      AxesResets(world, pre, np, height, k - 1, 3);
      if FacesUpTo(world, p, np, height, k).1 && !pre.1 {
        var a :| 0 <= a < 3 && Corrects(world, AxesUpTo(world, pre, np, height, k - 1, a).0, np, k - 1, a, height);
        assert Corrects(world, PointBefore(world, p, np, height, k - 1, a), np, k - 1, a, height);
      }
      if exists j, a :: 0 <= j < k && j < 2 && 0 <= a < 3 && Corrects(world, PointBefore(world, p, np, height, j, a), np, j, a, height) {
        var j, a :| 0 <= j < k && j < 2 && 0 <= a < 3 && Corrects(world, PointBefore(world, p, np, height, j, a), np, j, a, height);
        if j == k - 1 {
          assert Corrects(world, AxesUpTo(world, pre, np, height, k - 1, a).0, np, k - 1, a, height);
        }
      }
    }
  }

  /** With a brick at (1, 1, 0) and nothing else, the point (0.49, 1, 0) is pushed back to (0.25, 1, 0). */
  lemma CollideExample()
    ensures Collide(map[(1, 1, 0) := BRICK], (0.49, 1.0, 0.0), 2) == ((0.25, 1.0, 0.0), false)
  {
    var w := map[(1, 1, 0) := BRICK];
    var p := (0.49, 1.0, 0.0);
    RoundUnique(0.49, 0);
    RoundInt(1);
    RoundInt(0);
    var np := Normalize(p);
    assert np == (0, 1, 0);
    CatalogFlags();
    assert !CanPassThrough(w, TestedCell(np, 3, 0, 0));
    var q := (0.25, 1.0, 0.0);
    assert FacesUpTo(w, p, np, 2, 3) == (p, false) by {
      forall j, a | 0 <= j < 3 && 0 <= a < 3
        ensures !Corrects(w, p, np, j, a, 2)
      {
      }
      FacesUpToFree(w, p, np, 2, 0, 3, p);
    }
    assert AxesUpTo(w, (p, false), np, 2, 3, 1) == (q, false);
    assert AxesUpTo(w, (p, false), np, 2, 3, 2) == (q, false);
    assert FacesUpTo(w, p, np, 2, 4) == (q, false);
    forall j, a | 4 <= j < 6 && 0 <= a < 3
      ensures !Corrects(w, q, np, j, a, 2)
    {
    }
    FacesUpToFree(w, p, np, 2, 4, 6, q);
  }

  // ---------------------------------------------------------------- hit test

  /** Steps the ray takes per block of distance. */
  const STEPS_PER_BLOCK: int := 8

  /** The default reach of the player's sight, in blocks. */
  const MAX_DISTANCE: int := 8

  /** The point `j` steps of 1/8 of `v` along the ray from `p`. */
  function Advance(p: Vec, v: Vec, j: int): Vec
  {
    (p.0 + j as real * (v.0 / 8.0), p.1 + j as real * (v.1 / 8.0), p.2 + j as real * (v.2 / 8.0))
  }

  /** The block containing the `j`-th sample of the ray. */
  function SampleBlock(p: Vec, v: Vec, j: int): Pos
  {
    Normalize(Advance(p, v, j))
  }

  /** The ray's next sample point, 1/8 of `v` further along. */
  function Step(p: Vec, v: Vec): Vec
  {
    (p.0 + v.0 / 8.0, p.1 + v.1 / 8.0, p.2 + v.2 / 8.0)
  }

  /** One step of the ray is one more sample. */
  lemma AdvanceStep(p: Vec, v: Vec, j: int)
    ensures Advance(Step(p, v), v, j) == Advance(p, v, j + 1)
  {
    assert (j + 1) as real == j as real + 1.0;
    var a, b, c := v.0 / 8.0, v.1 / 8.0, v.2 / 8.0;
    assert (j + 1) as real * a == j as real * a + a;
    assert (j + 1) as real * b == j as real * b + b;
    assert (j + 1) as real * c == j as real * c + c;
    var q := Step(p, v);
    assert Advance(q, v, j).0 == Advance(p, v, j + 1).0;
    assert Advance(q, v, j).1 == Advance(p, v, j + 1).1;
    assert Advance(q, v, j).2 == Advance(p, v, j + 1).2;
  }

  /** The samples of the ray from `Step(p, v)` are those from `p` minus the first, which is `p`'s block. */
  lemma SampleShift(p: Vec, v: Vec)
    ensures SampleBlock(p, v, 0) == Normalize(p)
    ensures forall j :: 0 <= j ==> SampleBlock(Step(p, v), v, j) == SampleBlock(p, v, j + 1)
  {
    assert 0 as real * (v.0 / 8.0) == 0.0 && 0 as real * (v.1 / 8.0) == 0.0 && 0 as real * (v.2 / 8.0) == 0.0;
    assert Advance(p, v, 0) == p;
    forall j | 0 <= j
      ensures SampleBlock(Step(p, v), v, j) == SampleBlock(p, v, j + 1)
    {
      AdvanceStep(p, v, j);
    }
  }

  /**
   The ray march from `p` along `v` for `n` more samples, `previous` being
   the block of the sample before: the first sample whose block is in the
   world and differs from the previous sample's block is the hit, returned
   with that previous block; no hit gives two Nones.
   */
  function March(world: map<Pos, Block>, p: Vec, v: Vec, n: nat, previous: Option<Pos>): (r: (Option<Pos>, Option<Pos>))
    requires previous.Some? ==> previous.value !in world
    ensures r.0.None? ==> r.1.None?
    ensures r.0.Some? ==> r.0.value in world && (r.1.Some? ==> r.1.value !in world)
    decreases n
  {
    if n == 0 then (None, None)
    else
      var key := Normalize(p);
      if Some(key) != previous && key in world then (Some(key), previous)
      else March(world, Step(p, v), v, n - 1, Some(key))
  }

  /**
   The block the player at `position` looks at along `vector`, within
   `maxDistance` blocks, and the block just before it on the ray.
   */
  function HitTest(world: map<Pos, Block>, position: Vec, vector: Vec, maxDistance: int := MAX_DISTANCE): (r: (Option<Pos>, Option<Pos>))
    ensures r.0.None? ==> r.1.None?
    ensures r.0.Some? ==> r.0.value in world && r.1 != r.0
  {
    var n := if maxDistance > 0 then maxDistance * STEPS_PER_BLOCK else 0;
    March(world, position, vector, n, None)
  }

  /** The block of the sample before sample `j`: `previous` for the first sample. */
  function SampleBefore(p: Vec, v: Vec, j: nat, previous: Option<Pos>): Option<Pos>
  {
    if j == 0 then previous else Some(SampleBlock(p, v, j - 1))
  }

  /** No sample among the first `j` of the ray lies in a block of the world. */
  predicate ClearUpTo(world: map<Pos, Block>, p: Vec, v: Vec, j: int)
  {
    forall i :: 0 <= i < j ==> SampleBlock(p, v, i) !in world
  }

  /** The first `n + 1` samples are clear when the first is and the next `n`, from the next point, are. */
  lemma ClearShift(world: map<Pos, Block>, p: Vec, v: Vec, n: nat)
    ensures ClearUpTo(world, p, v, n + 1) <==> Normalize(p) !in world && ClearUpTo(world, Step(p, v), v, n)
  {
    SampleShift(p, v);
    if Normalize(p) !in world && ClearUpTo(world, Step(p, v), v, n) {
      forall i | 0 <= i < n + 1
        ensures SampleBlock(p, v, i) !in world
      {
        if i > 0 {
          assert SampleBlock(Step(p, v), v, i - 1) == SampleBlock(p, v, i);
        }
      }
    }
    if ClearUpTo(world, p, v, n + 1) {
      assert SampleBlock(p, v, 0) !in world;
      forall i | 0 <= i < n
        ensures SampleBlock(Step(p, v), v, i) !in world
      {
        assert SampleBlock(Step(p, v), v, i) == SampleBlock(p, v, i + 1);
      }
    }
  }

  /**
   The march finds the first sample in a block of the world: it misses
   exactly when none of the `n` samples does, and otherwise returns that
   first sample's block and the block of the sample before it (`previous`
   for the very first sample).
   */
  lemma {:induction false} MarchFirstHit(world: map<Pos, Block>, p: Vec, v: Vec, n: nat, previous: Option<Pos>)
    requires previous.Some? ==> previous.value !in world
    ensures March(world, p, v, n, previous).0.None? <==> ClearUpTo(world, p, v, n)
    ensures March(world, p, v, n, previous).0.Some? ==>
      exists j :: 0 <= j < n && ClearUpTo(world, p, v, j) &&
        March(world, p, v, n, previous).0 == Some(SampleBlock(p, v, j)) &&
        March(world, p, v, n, previous).1 == SampleBefore(p, v, j, previous)
    decreases n
  {
    if n > 0 {
      var key := Normalize(p);
      SampleShift(p, v);
      ClearShift(world, p, v, n - 1);
      if !(Some(key) != previous && key in world) {
        assert key !in world;
        var q := Step(p, v);
        MarchFirstHit(world, q, v, n - 1, Some(key));
        if March(world, q, v, n - 1, Some(key)).0.Some? {
          var j :| 0 <= j < n - 1 && ClearUpTo(world, q, v, j) &&
            March(world, q, v, n - 1, Some(key)).0 == Some(SampleBlock(q, v, j)) &&
            March(world, q, v, n - 1, Some(key)).1 == SampleBefore(q, v, j, Some(key));
          ClearShift(world, p, v, j);
          assert SampleBefore(q, v, j, Some(key)) == SampleBefore(p, v, j + 1, previous);
        }
      } else {
        assert SampleBefore(p, v, 0, previous) == previous;
        assert ClearUpTo(world, p, v, 0);
      }
    }
  }

  /**
   The hit test's answer: a miss exactly when none of the samples within
   reach lies in a block of the world; otherwise the first such block.
   */
  lemma HitTestFirstHit(world: map<Pos, Block>, position: Vec, vector: Vec, maxDistance: int)
    ensures var n := if maxDistance > 0 then maxDistance * STEPS_PER_BLOCK else 0;
      (HitTest(world, position, vector, maxDistance).0.None? <==> ClearUpTo(world, position, vector, n)) &&
      (HitTest(world, position, vector, maxDistance).0.Some? ==>
        exists j :: 0 <= j < n && ClearUpTo(world, position, vector, j) &&
          HitTest(world, position, vector, maxDistance).0 == Some(SampleBlock(position, vector, j)) &&
          HitTest(world, position, vector, maxDistance).1 == SampleBefore(position, vector, j, None))
  {
    var n := if maxDistance > 0 then maxDistance * STEPS_PER_BLOCK else 0;
    MarchFirstHit(world, position, vector, n, None);
  }
}
