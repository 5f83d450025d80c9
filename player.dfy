/**
 The player: walking speed, flight, the strafe accumulator, position, view
 rotation, vertical velocity and the inventory of placeable blocks, with the
 methods the game's input handlers call and the per-tick motion update.

 Trigonometry is not modelled: the sight and motion vectors take the cosines
 and sines they need as inputs, and the jump speed is the constant the
 square root evaluates to.
 */
module PlayerState {
  import opened Blocks
  import opened Geometry

  /** The height of a jump, about one block. */
  const MAX_JUMP_HEIGHT: real := 1.0
  /** Terminal velocity: the fastest the player ever falls. */
  const MAX_FALL_SPEED: real := 50.0
  /** Speed while flying, in blocks per second. */
  const FLYING_SPEED: int := 15
  /** Downward acceleration in blocks per second squared. */
  const GRAVITY: real := 20.0
  /** The square root of 2 * GRAVITY * MAX_JUMP_HEIGHT, as a double. */
  const JUMP_SPEED: real := 6.324555320336759
  /** The player is two blocks tall. */
  const PLAYER_HEIGHT: int := 2
  /** One step of walking speed. */
  const WALK_SPEED_INCREMENT: int := 5
  /** Degrees of rotation per unit of mouse movement. */
  const SIGHT_SENSITIVITY: real := 0.15
  /** The blocks the player can place, selected with the number keys. */
  const INVENTORY: seq<Block> := [BRICK, GRASS, SAND, TREE_TRUNK, TREE_LEAVES]

  /** The jump speed is the square root of 40 to within 10^-14, so a jump peaks one block up. */
  lemma JumpSpeedReachesMaxHeight()
    ensures 2.0 * GRAVITY * MAX_JUMP_HEIGHT <= JUMP_SPEED * JUMP_SPEED < 2.0 * GRAVITY * MAX_JUMP_HEIGHT + 0.00000000000001
    ensures JUMP_SPEED * JUMP_SPEED / (2.0 * GRAVITY) - MAX_JUMP_HEIGHT < 0.000000000000001
  {
  }

  function Max(a: real, b: real): (r: real)
    ensures r >= a && r >= b && (r == a || r == b)
  {
    if a >= b then a else b
  }

  function Min(a: real, b: real): (r: real)
    ensures r <= a && r <= b && (r == a || r == b)
  {
    if a <= b then a else b
  }

  // ---------------------------------------------------------------- walking speed

  /** Speeding up adds one increment, but only from 15 or below. */
  function Faster(speed: int): (r: int)
    ensures r == speed || r == speed + WALK_SPEED_INCREMENT
    ensures r != speed <==> speed <= 15
  {
    if speed <= 15 then speed + WALK_SPEED_INCREMENT else speed
  }

  /** Slowing down takes one increment off, but only from above 5. */
  function Slower(speed: int): (r: int)
    ensures r == speed || r == speed - WALK_SPEED_INCREMENT
    ensures r != speed <==> speed > 5
  {
    if speed > 5 then speed - WALK_SPEED_INCREMENT else speed
  }

  /** The walking speeds reachable from the initial one. */
  const SPEED_LEVELS: set<int> := {5, 10, 15, 20}

  /** The walking speed after a run of speed keys: true speeds up, false slows down. */
  function SpeedAfter(speed: int, presses: seq<bool>): int
    decreases |presses|
  {
    if presses == [] then speed
    else SpeedAfter(if presses[0] then Faster(speed) else Slower(speed), presses[1..])
  }

  /** Starting on a level, any run of speed keys stays on the levels 5, 10, 15, 20. */
  lemma {:induction false} SpeedStaysOnLevels(speed: int, presses: seq<bool>)
    requires speed in SPEED_LEVELS
    ensures SpeedAfter(speed, presses) in SPEED_LEVELS
    decreases |presses|
  {
    if presses != [] {
      var next := if presses[0] then Faster(speed) else Slower(speed);
      assert next in SPEED_LEVELS;
      SpeedStaysOnLevels(next, presses[1..]);
    }
  }

  /**
   On the levels, slowing down undoes speeding up below the top and speeding
   up undoes slowing down above the bottom; at the ends the key does nothing.
   */
  lemma SpeedStepsUndo(speed: int)
    requires speed in SPEED_LEVELS
    ensures speed != 20 ==> Slower(Faster(speed)) == speed
    ensures speed != 5 ==> Faster(Slower(speed)) == speed
    ensures Faster(20) == 20 && Slower(5) == 5
  {
  }

  /** Four increases from 5 end at 20, and four decreases from 20 end at 5. */
  lemma SpeedExtremes()
    ensures SpeedAfter(5, [true, true, true, true]) == 20
    ensures SpeedAfter(20, [false, false, false, false]) == 5
  {
    assert [true, true, true, true][1..] == [true, true, true];
    assert [true, true, true][1..] == [true, true];
    assert [true, true][1..] == [true];
    assert [false, false, false, false][1..] == [false, false, false];
    assert [false, false, false][1..] == [false, false];
    assert [false, false][1..] == [false];
  }

  // ---------------------------------------------------------------- strafing

  /** A movement key. */
  datatype Direction = Forward | Backward | Left | Right

  /** Forward and backward act on strafe component 0, left and right on component 1. */
  function StrafeIndex(d: Direction): (i: int)
    ensures 0 <= i < 2
  {
    if d == Forward || d == Backward then 0 else 1
  }

  /** Moving forward or left counts down, moving backward or right counts up. */
  function StrafeStep(d: Direction): (k: int)
    ensures k == 1 || k == -1
  {
    if d == Forward || d == Left then -1 else 1
  }

  /** The effect of starting to move in direction `d`. */
  function Moved(strafe: seq<int>, d: Direction): (r: seq<int>)
    requires |strafe| == 2
    ensures |r| == 2
    ensures r[StrafeIndex(d)] == strafe[StrafeIndex(d)] + StrafeStep(d)
    ensures r[1 - StrafeIndex(d)] == strafe[1 - StrafeIndex(d)]
  {
    strafe[StrafeIndex(d) := strafe[StrafeIndex(d)] + StrafeStep(d)]
  }

  /** The effect of stopping moving in direction `d`. */
  function Stopped(strafe: seq<int>, d: Direction): (r: seq<int>)
    requires |strafe| == 2
    ensures |r| == 2
    ensures r[StrafeIndex(d)] == strafe[StrafeIndex(d)] - StrafeStep(d)
    ensures r[1 - StrafeIndex(d)] == strafe[1 - StrafeIndex(d)]
  {
    strafe[StrafeIndex(d) := strafe[StrafeIndex(d)] - StrafeStep(d)]
  }

  /** Stopping undoes moving, and moving undoes stopping. */
  lemma StopUndoesMove(strafe: seq<int>, d: Direction)
    requires |strafe| == 2
    ensures Stopped(Moved(strafe, d), d) == strafe
    ensures Moved(Stopped(strafe, d), d) == strafe
  {
    var i := StrafeIndex(d);
    assert Stopped(Moved(strafe, d), d)[i] == strafe[i] && Stopped(Moved(strafe, d), d)[1 - i] == strafe[1 - i];
    assert Moved(Stopped(strafe, d), d)[i] == strafe[i] && Moved(Stopped(strafe, d), d)[1 - i] == strafe[1 - i];
  }

  /** Stopping in one direction has the same effect as starting to move the opposite way. */
  lemma StopIsOppositeMove(strafe: seq<int>)
    requires |strafe| == 2
    ensures Stopped(strafe, Forward) == Moved(strafe, Backward)
    ensures Stopped(strafe, Backward) == Moved(strafe, Forward)
    ensures Stopped(strafe, Left) == Moved(strafe, Right)
    ensures Stopped(strafe, Right) == Moved(strafe, Left)
  {
  }

  /**
   A tri-state movement input: 0 leaves the strafe alone, 1 starts the
   movement and any other value stops it.
   */
  function Steered(strafe: seq<int>, d: Direction, input: int): (r: seq<int>)
    requires |strafe| == 2
    ensures |r| == 2
  {
    if input == 0 then strafe else if input == 1 then Moved(strafe, d) else Stopped(strafe, d)
  }

  /** The signed effect of a tri-state input: 0, +1 for 1, -1 otherwise. */
  function Sign3(input: int): int
  {
    if input == 0 then 0 else if input == 1 then 1 else -1
  }

  /** The four movement inputs applied in the order forward, backward, left, right. */
  function SteeredAll(strafe: seq<int>, forward: int, backward: int, left: int, right: int): (r: seq<int>)
    requires |strafe| == 2
    ensures |r| == 2
  {
    Steered(Steered(Steered(Steered(strafe, Forward, forward), Backward, backward), Left, left), Right, right)
  }

  /**
   The four inputs add up component by component: the first component moves
   by backward minus forward, the second by right minus left; from rest with
   tri-state inputs that is [backward - forward, right - left].
   */
  lemma SteeredAllSums(strafe: seq<int>, forward: int, backward: int, left: int, right: int)
    requires |strafe| == 2
    ensures SteeredAll(strafe, forward, backward, left, right) ==
      [strafe[0] + Sign3(backward) - Sign3(forward), strafe[1] + Sign3(right) - Sign3(left)]
    ensures strafe == [0, 0] && -1 <= forward <= 1 && -1 <= backward <= 1 && -1 <= left <= 1 && -1 <= right <= 1 ==>
      SteeredAll(strafe, forward, backward, left, right) == [backward - forward, right - left]
  {
    var s1 := Steered(strafe, Forward, forward);
    assert s1 == [strafe[0] - Sign3(forward), strafe[1]];
    var s2 := Steered(s1, Backward, backward);
    assert s2 == [strafe[0] + Sign3(backward) - Sign3(forward), strafe[1]];
    var s3 := Steered(s2, Left, left);
    assert s3 == [strafe[0] + Sign3(backward) - Sign3(forward), strafe[1] - Sign3(left)];
    var s4 := Steered(s3, Right, right);
    assert s4 == [strafe[0] + Sign3(backward) - Sign3(forward), strafe[1] + Sign3(right) - Sign3(left)];
  }

  // ---------------------------------------------------------------- jumping, items, sight

  /** The vertical velocity after a jump key: a jump starts only from rest. */
  function Jumped(dy: real): real
  {
    if dy == 0.0 then JUMP_SPEED else dy
  }

  /** A jump in mid-air changes nothing, so pressing jump twice is pressing it once. */
  lemma JumpIdempotent(dy: real)
    ensures Jumped(Jumped(dy)) == Jumped(dy)
    ensures Jumped(dy) != 0.0
  {
  }

  /**
   The block selected by number key `index`: any integer, negative or past the
   end, wraps around the inventory.
   */
  function Selected(inventory: seq<Block>, index: int): (b: Block)
    requires |inventory| > 0
    ensures b in inventory
    ensures 0 <= index < |inventory| ==> b == inventory[index]
  {
    inventory[index % |inventory|]
  }

  /** Selection repeats with the inventory's length, in both directions. */
  lemma SelectedPeriodic(inventory: seq<Block>, index: int)
    requires |inventory| > 0
    ensures Selected(inventory, index + |inventory|) == Selected(inventory, index)
    ensures Selected(inventory, index - |inventory|) == Selected(inventory, index)
  {
    var n := |inventory|;
    var q, r := index / n, index % n;
    assert index + n == (q + 1) * n + r;
    ModUnique(index + n, n, q + 1, r);
    assert index - n == (q - 1) * n + r;
    ModUnique(index - n, n, q - 1, r);
  }

  /** A remainder is determined by any decomposition with a remainder in [0, n). */
  lemma ModUnique(a: int, n: int, q: int, r: int)
    requires n > 0 && a == q * n + r && 0 <= r < n
    ensures a % n == r
  {
    var q', r' := a / n, a % n;
    assert (q - q') * n == r' - r;
    if q > q' {
      MulAtLeast(q - q', n);
    } else if q < q' {
      MulAtLeast(q' - q, n);
    }
  }

  lemma MulAtLeast(m: int, n: int)
    requires m >= 1 && n > 0
    ensures m * n >= n
  {
    assert m * n == (m - 1) * n + n;
  }

  /** Key -1 selects the last item, and one past the end selects the second. */
  lemma SelectedExamples()
    ensures Selected(INVENTORY, -1) == TREE_LEAVES
    ensures Selected(INVENTORY, |INVENTORY| + 1) == GRASS
  {
  }

  /** The view pitch, kept between looking straight down (-90) and straight up (90). */
  function ClampPitch(y: real): (r: real)
    ensures -90.0 <= r <= 90.0
    ensures -90.0 <= y <= 90.0 ==> r == y
    ensures y > 90.0 ==> r == 90.0
    ensures y < -90.0 ==> r == -90.0
  {
    Max(-90.0, Min(90.0, y))
  }

  /** The rotation after a mouse movement of (dx, dy): yaw is unbounded, pitch is clamped. */
  function Turned(rotation: (real, real), dx: int, dy: int): (r: (real, real))
    ensures r.0 - rotation.0 == SIGHT_SENSITIVITY * dx as real
    ensures r.1 == ClampPitch(rotation.1 + SIGHT_SENSITIVITY * dy as real)
  {
    (dx as real * SIGHT_SENSITIVITY + rotation.0, ClampPitch(dy as real * SIGHT_SENSITIVITY + rotation.1))
  }

  /** Moving the mouse by one unit turns by 0.15 degrees; a movement of 700 either way hits the pitch limit. */
  lemma TurnedExamples()
    ensures Turned((0.0, 0.0), 1, 0) == (0.15, 0.0)
    ensures Turned((0.0, 0.0), 0, 1) == (0.0, 0.15)
    ensures Turned((0.0, 0.0), 0, 700).1 == 90.0
    ensures Turned((0.0, 0.0), 0, -700).1 == -90.0
  {
  }

  /**
   The direction the player looks in, from the cosine and sine of the pitch
   and of the yaw turned by -90 degrees.
   */
  function SightVector(pitchCos: real, pitchSin: real, yawCos: real, yawSin: real): Vec
  {
    (yawCos * pitchCos, pitchSin, yawSin * pitchCos)
  }

  /** With true cosines and sines, the sight vector has unit length. */
  lemma SightVectorUnit(pitchCos: real, pitchSin: real, yawCos: real, yawSin: real)
    requires pitchCos * pitchCos + pitchSin * pitchSin == 1.0
    requires yawCos * yawCos + yawSin * yawSin == 1.0
    ensures var v := SightVector(pitchCos, pitchSin, yawCos, yawSin);
      v.0 * v.0 + v.1 * v.1 + v.2 * v.2 == 1.0
  {
    var v := SightVector(pitchCos, pitchSin, yawCos, yawSin);
    calc {
      v.0 * v.0 + v.1 * v.1 + v.2 * v.2;
      (yawCos * pitchCos) * (yawCos * pitchCos) + pitchSin * pitchSin + (yawSin * pitchCos) * (yawSin * pitchCos);
      (yawCos * yawCos + yawSin * yawSin) * (pitchCos * pitchCos) + pitchSin * pitchSin;
      pitchCos * pitchCos + pitchSin * pitchSin;
    }
  }

  /**
   The direction of motion. `pitch` holds the cosine and sine of the view
   pitch; `heading` the cosine and sine of the yaw plus the strafe angle.
   Not moving gives the zero vector; walking stays level; flying follows
   the pitch, except sideways (level, full speed) and backwards (vertical
   part reversed).
   */
  function MotionVector(strafe: seq<int>, flying: bool, pitch: (real, real), heading: (real, real)): Vec
    requires |strafe| == 2
  {
    if strafe[0] == 0 && strafe[1] == 0 then (0.0, 0.0, 0.0)
    else if flying then
      var m := if strafe[1] != 0 then 1.0 else pitch.0;
      var dy := if strafe[1] != 0 then 0.0 else pitch.1;
      var dy' := if strafe[0] > 0 then -dy else dy;
      (heading.0 * m, dy', heading.1 * m)
    else (heading.0, 0.0, heading.1)
  }

  /**
   The cases of the motion vector: zero when idle; level and along the
   heading when walking or flying sideways; when flying straight, the
   vertical part is the pitch's sine, negated going backwards.
   */
  lemma MotionVectorCases(strafe: seq<int>, flying: bool, pitch: (real, real), heading: (real, real))
    requires |strafe| == 2
    ensures strafe == [0, 0] ==> MotionVector(strafe, flying, pitch, heading) == (0.0, 0.0, 0.0)
    ensures strafe != [0, 0] && (!flying || strafe[1] != 0) ==>
      MotionVector(strafe, flying, pitch, heading) == (heading.0, 0.0, heading.1)
    ensures strafe != [0, 0] && flying && strafe[1] == 0 ==>
      MotionVector(strafe, flying, pitch, heading) ==
        (heading.0 * pitch.0, if strafe[0] > 0 then -pitch.1 else pitch.1, heading.1 * pitch.0)
  {
    if strafe != [0, 0] {
      assert strafe == [strafe[0], strafe[1]];
      assert strafe[0] != 0 || strafe[1] != 0;
      if flying && strafe[1] == 0 {
        assert MotionVector(strafe, flying, pitch, heading).1 == if strafe[0] > 0 then -pitch.1 else pitch.1;
        assert MotionVector(strafe, flying, pitch, heading).0 == heading.0 * pitch.0;
        assert MotionVector(strafe, flying, pitch, heading).2 == heading.1 * pitch.0;
      }
    }
  }

  /** Keeps one coordinate within [-boundary, boundary]. */
  function KeepWithin(dimension: real, boundary: real := WORLD_SIZE as real): (r: real)
    ensures boundary >= 0.0 ==> -boundary <= r <= boundary
    ensures -boundary <= dimension <= boundary ==> r == dimension
    ensures r == dimension || r == boundary || r == -boundary
  {
    if dimension > boundary then boundary
    else if dimension < -boundary then -boundary
    else dimension
  }

  /** Clamping twice is clamping once, and the pitch clamp is the same clamp with bound 90. */
  lemma KeepWithinIdempotent(dimension: real, boundary: real)
    requires boundary >= 0.0
    ensures KeepWithin(KeepWithin(dimension, boundary), boundary) == KeepWithin(dimension, boundary)
    ensures ClampPitch(dimension) == KeepWithin(dimension, 90.0)
  {
  }

  /** The position with x and z brought back inside the world's walls; y is left alone. */
  function WithinWorld(position: Vec): (r: Vec)
    ensures -WORLD_SIZE as real <= r.0 <= WORLD_SIZE as real
    ensures -WORLD_SIZE as real <= r.2 <= WORLD_SIZE as real
    ensures r.1 == position.1
  {
    (KeepWithin(position.0), position.1, KeepWithin(position.2))
  }

  /** A position already inside the walls is not moved, as in the boundary cases (10, 5, 15) and (160, 20, 160). */
  lemma WithinWorldInside(position: Vec)
    requires -WORLD_SIZE as real <= position.0 <= WORLD_SIZE as real
    requires -WORLD_SIZE as real <= position.2 <= WORLD_SIZE as real
    ensures WithinWorld(position) == position
  {
  }

  /** A position outside is clamped to the nearest wall, e.g. (-260, 25, 280) goes to (-160, 25, 160). */
  lemma WithinWorldExample()
    ensures WithinWorld((-260.0, 25.0, 280.0)) == (-160.0, 25.0, 160.0)
  {
  }

  // ---------------------------------------------------------------- motion update

  /** The speed of the player, walking or flying. */
  function Speed(flying: bool, walkingSpeed: int): int
  {
    if flying then FLYING_SPEED else walkingSpeed
  }

  /** On the walking levels or flying, the player's speed is between 5 and 20. */
  lemma SpeedBounds(flying: bool, walkingSpeed: int)
    requires walkingSpeed in SPEED_LEVELS
    ensures 5 <= Speed(flying, walkingSpeed) <= 20
    ensures flying ==> Speed(flying, walkingSpeed) == 15
  {
  }

  /** The vertical velocity after falling for `dt` seconds, never below terminal velocity. */
  function Fallen(dy: real, dt: real): (r: real)
    ensures r >= -MAX_FALL_SPEED
    ensures r >= dy - dt * GRAVITY
    ensures r == dy - dt * GRAVITY || r == -MAX_FALL_SPEED
  {
    Max(dy - dt * GRAVITY, -MAX_FALL_SPEED)
  }

  /**
   Falling never speeds the player up: a positive time step decreases the
   vertical velocity unless it is already at (or below) terminal velocity,
   where it stays at terminal velocity.
   */
  lemma FallenSlows(dy: real, dt: real)
    requires dt > 0.0
    ensures dy > -MAX_FALL_SPEED ==> Fallen(dy, dt) < dy
    ensures dy <= -MAX_FALL_SPEED ==> Fallen(dy, dt) == -MAX_FALL_SPEED
  {
  }

  /** The vertical direction of flight: up, down or neither (both keys cancel). */
  function Lift(ascend: bool, descend: bool): (k: int)
    ensures -1 <= k <= 1
    ensures k == 1 <==> ascend && !descend
    ensures k == -1 <==> descend && !ascend
  {
    (if ascend then 1 else 0) - (if descend then 1 else 0)
  }

  /**
   The displacement proposed for one step of `dt` seconds: the motion
   vector scaled by speed and time, plus the fall when walking or the
   flight's vertical direction when flying.
   */
  function Displacement(flying: bool, ascend: bool, descend: bool, dy: real, dt: real, speed: int, motion: Vec): Vec
  {
    var d := dt * speed as real;
    var vertical := if flying then Lift(ascend, descend) as real * dt * FLYING_SPEED as real else Fallen(dy, dt) * dt;
    (motion.0 * d, motion.1 * d + vertical, motion.2 * d)
  }

  /**
   A player standing still and not flying drops by the fall of one step, and
   a player hovering (no keys, or both vertical keys) does not move.
   */
  lemma DisplacementAtRest(flying: bool, ascend: bool, descend: bool, dy: real, dt: real, speed: int)
    ensures !flying ==> Displacement(flying, ascend, descend, dy, dt, speed, (0.0, 0.0, 0.0)) == (0.0, Fallen(dy, dt) * dt, 0.0)
    ensures flying && ascend == descend ==> Displacement(flying, ascend, descend, dy, dt, speed, (0.0, 0.0, 0.0)) == (0.0, 0.0, 0.0)
    ensures !flying && dy == 0.0 && dt == 1.0 ==> Displacement(flying, ascend, descend, dy, dt, speed, (0.0, 0.0, 0.0)).1 == -GRAVITY
  {
    var d := dt * speed as real;
    assert 0.0 * d == 0.0;
    if flying && ascend == descend {
      assert Lift(ascend, descend) == 0;
      assert Lift(ascend, descend) as real * dt * FLYING_SPEED as real == 0.0;
    }
  }

  function Translate(p: Vec, d: Vec): Vec
  {
    (p.0 + d.0, p.1 + d.1, p.2 + d.2)
  }

  /** The player, with the fields the game updates in place. */
  class Player {
    var walkingSpeed: int
    var flying: bool
    var ascend: bool
    var descend: bool
    /** Component 0: -1 moving forward, 1 back; component 1: -1 moving left, 1 right. */
    var strafe: seq<int>
    var position: Vec
    /** Yaw in the ground plane and pitch up from it, in degrees. */
    var rotation: (real, real)
    /** Vertical velocity. */
    var dy: real
    var inventory: seq<Block>
    var block: Block

    /** The shape the methods rely on: a two-component strafe and a non-empty inventory. */
    predicate Valid()
      reads this
    {
      |strafe| == 2 && |inventory| > 0
    }

    constructor ()
      ensures Valid()
      ensures walkingSpeed == WALK_SPEED_INCREMENT && !flying && !ascend && !descend
      ensures strafe == [0, 0] && position == (0.0, 0.0, 0.0) && rotation == (0.0, 0.0) && dy == 0.0
      ensures inventory == INVENTORY && block == INVENTORY[0]
    {
      walkingSpeed := WALK_SPEED_INCREMENT;
      flying := false;
      ascend := false;
      descend := false;
      strafe := [0, 0];
      position := (0.0, 0.0, 0.0);
      rotation := (0.0, 0.0);
      dy := 0.0;
      inventory := INVENTORY;
      block := INVENTORY[0];
    }

    method SpeedUp()
      modifies this`walkingSpeed
      ensures walkingSpeed == Faster(old(walkingSpeed))
    {
      if walkingSpeed <= 15 {
        walkingSpeed := walkingSpeed + WALK_SPEED_INCREMENT;
      }
    }

    method SpeedDown()
      modifies this`walkingSpeed
      ensures walkingSpeed == Slower(old(walkingSpeed))
    {
      if walkingSpeed > 5 {
        walkingSpeed := walkingSpeed - WALK_SPEED_INCREMENT;
      }
    }

    method MoveForward()
      requires Valid()
      modifies this`strafe
      ensures Valid() && strafe == Moved(old(strafe), Forward)
    {
      strafe := strafe[0 := strafe[0] - 1];
    }

    method MoveBackward()
      requires Valid()
      modifies this`strafe
      ensures Valid() && strafe == Moved(old(strafe), Backward)
    {
      strafe := strafe[0 := strafe[0] + 1];
    }

    method MoveLeft()
      requires Valid()
      modifies this`strafe
      ensures Valid() && strafe == Moved(old(strafe), Left)
    {
      strafe := strafe[1 := strafe[1] - 1];
    }

    method MoveRight()
      requires Valid()
      modifies this`strafe
      ensures Valid() && strafe == Moved(old(strafe), Right)
    {
      strafe := strafe[1 := strafe[1] + 1];
    }

    method Jump()
      modifies this`dy
      ensures dy == Jumped(old(dy))
    {
      if dy == 0.0 {
        dy := JUMP_SPEED;
      }
    }

    method SelectActiveItem(index: int)
      requires Valid()
      modifies this`block
      ensures block == Selected(inventory, index)
    {
      var selected := index % |inventory|;
      block := inventory[selected];
    }

    method StopForward()
      requires Valid()
      modifies this`strafe
      ensures Valid() && strafe == Stopped(old(strafe), Forward)
    {
      strafe := strafe[0 := strafe[0] + 1];
    }

    method StopBackward()
      requires Valid()
      modifies this`strafe
      ensures Valid() && strafe == Stopped(old(strafe), Backward)
    {
      strafe := strafe[0 := strafe[0] - 1];
    }

    method StopLeft()
      requires Valid()
      modifies this`strafe
      ensures Valid() && strafe == Stopped(old(strafe), Left)
    {
      strafe := strafe[1 := strafe[1] + 1];
    }

    method StopRight()
      requires Valid()
      modifies this`strafe
      ensures Valid() && strafe == Stopped(old(strafe), Right)
    {
      strafe := strafe[1 := strafe[1] - 1];
    }

    method AdjustSight(dx: int, dy: int)
      modifies this`rotation
      ensures rotation == Turned(old(rotation), dx, dy)
      ensures -90.0 <= rotation.1 <= 90.0
    {
      var (x, y) := rotation;
      var m := SIGHT_SENSITIVITY;
      x := dx as real * m + x;
      y := dy as real * m + y;
      y := Max(-90.0, Min(90.0, y));
      rotation := (x, y);
    }

    function CurrentSpeed(): int
      reads this
    {
      Speed(flying, walkingSpeed)
    }

    method ToggleFlight()
      modifies this`flying
      ensures flying == !old(flying)
    {
      flying := !flying;
    }

    /**
     One motion step of `dt` seconds along `motion` (the motion vector,
     computed by MotionVector from the trigonometry of the current
     rotation). `checker` resolves collisions: it returns the corrected
     position and whether it stopped the player vertically, which sets the
     vertical velocity to 0.
     */
    method Update(dt: real, motion: Vec, checker: (Vec, int) -> (Vec, bool))
      modifies this`dy, this`position
      ensures var target := Translate(old(position), Displacement(flying, ascend, descend, old(dy), dt, CurrentSpeed(), motion));
        var result := checker(target, PLAYER_HEIGHT);
        position == result.0 &&
        dy == (if result.1 then 0.0 else if flying then old(dy) else Fallen(old(dy), dt))
    {
      var speed := CurrentSpeed();
      var d := dt * speed as real;
      var dx, dyStep, dz := motion.0 * d, motion.1 * d, motion.2 * d;
      ghost var disp := Displacement(flying, ascend, descend, old(dy), dt, speed, motion);
      assert dx == disp.0 && dz == disp.2;
      if !flying {
        dy := dy - dt * GRAVITY;
        dy := Max(dy, -MAX_FALL_SPEED);
        assert dy == Fallen(old(dy), dt);
        dyStep := dyStep + dy * dt;
        assert dyStep == disp.1;
      } else {
        var direction := 0;
        direction := direction + (if ascend then 1 else 0);
        direction := direction - (if descend then 1 else 0);
        assert direction == Lift(ascend, descend);
        dyStep := dyStep + direction as real * dt * FLYING_SPEED as real;
        assert dyStep == disp.1;
      }
      var (x, y, z) := position;
      var target := (x + dx, y + dyStep, z + dz);
      var result := checker(target, PLAYER_HEIGHT);
      if result.1 {
        dy := 0.0;
      }
      position := result.0;
    }

    method CheckPlayerWithinWorldBoundaries()
      modifies this`position
      ensures position == WithinWorld(old(position))
    {
      var (x, y, z) := position;
      x := KeepWithin(x, WORLD_SIZE as real);
      z := KeepWithin(z, WORLD_SIZE as real);
      position := (x, y, z);
    }
  }
}
