# Tempus Fugit Minecraft — a verified model of the game core

Tempus Fugit Minecraft is a small block world written in Python on top of
pyglet. Its core is the `Model` class of `model.py`. The model keeps four
things about the world:

- the world itself: a dictionary from integer positions to block kinds;
- the blocks currently shown, and the renderer's vertex lists for the drawn ones;
- a per-sector index of positions, where a sector is a 16 × 16 column;
- a queue of deferred draw and erase calls.

The core also includes:

- the `Player` of `player.py`: speed levels, strafing, jumping and flight, sight, gravity and the world boundary;
- the `Block` catalogue and texture atlas of `block.py`;
- the cube and face constants of `utilities.py`;
- the terrain generators of `world.py` and `model.py`: base layer, hills, clouds and trees.

The project models this core in Dafny and proves what it promises. It has
these modules:

- **Blocks** (`blocks.dfy`): block kinds as values, the texture-atlas arithmetic and the eight kinds of the game.
- **Geometry** (`geometry.dfy`): `WORLD_SIZE`, `FACES`, face neighbours, `cube_vertices`.
- **Grid** (`grid.dfy`):
  - `normalize` with Python's round-half-to-even;
  - `sectorize`, with floor division.
- **WorldStore** (`store.dfy`): the model's state as a `Store` value. Every model operation is written as a function from store to store, with lemmas about it:
  - adding and removing blocks;
  - showing and hiding blocks;
  - the neighbour check;
  - the sector index;
  - the drawing queue;
  - the disk of sectors around the player.
- **Collision** (`collision.dfy`): `collide`, `can_pass_through_block` and `hit_test` as functions on the world, with their characterising lemmas.
- **PlayerState** (`player.dfy`): the `Player` class and the pure rules its methods follow.
- **Terrain** (`terrain.dfy`): the generators of `world.py`, as loop methods proved against recursive definitions of the shapes they build, with membership and counting lemmas.
- **GameModel** (`gamemodel.dfy`): the `Model` class. Its fields are `world`, `shown`, `handles` (the source's `_shown`), `sectors`, `queue`, `sector` and `player`. Its methods update them in place and are proved against the WorldStore, Collision and PlayerState functions. This includes:
  - `_initialize`, which places the whole terrain;
  - the per-tick `update`;
  - the input handlers.

Random draws (hill centres, heights, sizes, kinds; cloud centres, sizes and
colours) are parameters of the operations that use them. The choice of a
tree site is an arbitrary choice among the remaining sites. The renderer's
vertex list is modelled as the data it is built from: a `Mesh` holding the
cube's vertex coordinates and the block's texture coordinates.

## Model

| member | source | states |
|---|---|---|
| Blocks.TexCoord | tempus_fugit_minecraft/block.py:26-38 | the eight coordinates are the four corners of atlas cell (x, y): the lower-left corner is (x/n, y/n), the corners share x and y pairwise as a square traced counter-clockwise, and each side is 1/n long |
| Blocks.TexCoords | tempus_fugit_minecraft/block.py:41-57 | a block's texture list holds 48 coordinates, eight for each of the six faces |
| Blocks.TexCoordsLayout | tempus_fugit_minecraft/block.py:41-57 | the faces are listed top, bottom, then the four sides, and the four sides all use the side cell |
| Blocks.NewBlock | tempus_fugit_minecraft/block.py:6-23 | a block keeps its name and flags, and its texture coordinates are those of its top, bottom and side cells; by default it is breakable, collidable and buildable on |
| Blocks.CatalogFlags | tempus_fugit_minecraft/block.py:60-67 | the breakable, collidable and buildable-on flags of each of the eight kinds: stone is unbreakable; clouds can be neither broken, collided with nor built on; leaves can be walked through |
| Blocks.KindsDistinct | tempus_fugit_minecraft/block.py:60-67 | the kinds the generators mix are pairwise different, so the counts and memberships below do not conflate them |
| Blocks.TexCoordInUnitSquare | tempus_fugit_minecraft/block.py:26-38 | every coordinate of a cell inside the n × n atlas lies in [0, 1] |
| Geometry.Neighbor | tempus_fugit_minecraft/utilities.py:24-31 | the k-th face neighbour differs from the position, by exactly the k-th offset of FACES |
| Geometry.Opposite | tempus_fugit_minecraft/utilities.py:24-31 | every face has an opposite face, which is different from it |
| Geometry.FacesAreAxes | tempus_fugit_minecraft/utilities.py:24-31 | FACES lists six distinct unit steps along one axis each |
| Geometry.NeighborOpposite | tempus_fugit_minecraft/utilities.py:24-31 | the opposite face is the negated offset, and stepping to a neighbour and back through the opposite face returns to the start |
| Geometry.NeighborsDistinct | tempus_fugit_minecraft/utilities.py:24-31 | the six neighbours of a position are pairwise different |
| Geometry.CornersAreSigns | tempus_fugit_minecraft/utilities.py:1-18 | each of the 24 corners of cube_vertices is ±1 on every axis; the top face has y = +1 and the bottom face y = −1 |
| Geometry.CornerCoordsOnCube | tempus_fugit_minecraft/utilities.py:1-18 | corner signs turn into vertices at centre ± n on each axis |
| Geometry.CubeVerticesShape | tempus_fugit_minecraft/utilities.py:1-18 | cube_vertices returns 72 coordinates, 24 vertices each at centre ± n on every axis, the first four on the top face and the next four on the bottom face |
| Geometry.SquareIsProduct | tempus_fugit_minecraft/world.py:101-103 | the square used in the round-hill, cloud and spawn-area tests is d * d |
| Grid.Round | tempus_fugit_minecraft/model.py:19-28 | Python's round: the result is within 0.5 of the argument, and a tie goes to the even integer |
| Grid.RoundUnique | tempus_fugit_minecraft/model.py:19-28 | those two conditions determine the rounded integer |
| Grid.RoundInt | tempus_fugit_minecraft/model.py:19-28 | rounding an integer returns it |
| Grid.RoundTies | tempus_fugit_minecraft/model.py:19-28 | ties round to even: 0.5 → 0, 1.5 → 2, 2.5 → 2, −0.5 → 0, −1.5 → −2 |
| Grid.Normalize | tempus_fugit_minecraft/model.py:19-28 | the block containing a point: each coordinate is within 0.5 of the point's |
| Grid.NormalizeBlock | tempus_fugit_minecraft/model.py:19-28 | normalising the centre of a block gives that block |
| Grid.SectorOf | tempus_fugit_minecraft/model.py:31-42 | a block's sector has y = 0, and the block lies inside that sector's 16 × 16 column (floor division, also for negative coordinates) |
| Grid.SectorOfUnique | tempus_fugit_minecraft/model.py:31-42 | that column determines the sector |
| Grid.SectorizeExample | tempus_fugit_minecraft/model.py:31-42 | sectorize((17, 5, −3)) = (1, 0, −1) |
| Collision.PassableKinds | tempus_fugit_minecraft/model.py:414-425 | clouds and leaves can be passed through; grass, sand, brick, stone and trunk cannot |
| Collision.WithCoord | tempus_fugit_minecraft/model.py:502 | replacing coordinate i of a point sets that coordinate and leaves the other two |
| Collision.WithAxis | tempus_fugit_minecraft/model.py:497-499 | the same for one axis of a block position |
| Collision.SignedIsProduct | tempus_fugit_minecraft/model.py:493 | the signed overlap is the product of the offset and the face component |
| Collision.FaceCheck | tempus_fugit_minecraft/model.py:489-507 | one face and axis of collide: when no tested cell of the player's column stops the point, the point is unchanged; otherwise the overlap is pushed back to exactly PAD. Only coordinate i moves. The vertical speed is reset exactly when the stop is on the floor or ceiling face |
| Collision.AxesUpToFree | tempus_fugit_minecraft/model.py:489-507 | axes that correct nothing leave the point and the flag as they are |
| Collision.FacesUpToFree | tempus_fugit_minecraft/model.py:488-507 | faces that correct nothing leave the result of the faces before them unchanged |
| Collision.CollideUnblocked | tempus_fugit_minecraft/model.py:469-508 | when every cell collide tests can be passed through, the position comes back unchanged and the vertical speed is kept |
| Collision.CollideEmptyWorld | tempus_fugit_minecraft/model.py:469-508 | in an empty world collide changes nothing |
| Collision.AxesResets | tempus_fugit_minecraft/model.py:489-507 | within one face, the reset flag is set exactly when it was already set or when that face is the floor or ceiling and some axis corrected the point |
| Collision.CollideResetsOnVerticalFaces | tempus_fugit_minecraft/model.py:503-506 | collide resets the vertical speed exactly when a correction was made on the up or down face |
| Collision.CollideExample | tempus_fugit_minecraft/model.py:469-508 | a player two blocks tall at x = 0.49 next to a brick at (1, 1, 0) is pushed back to x = 0.25, and its vertical speed is kept |
| Collision.AdvanceStep | tempus_fugit_minecraft/model.py:151-156 | a step of vector/8 followed by j steps is j + 1 steps |
| Collision.SampleShift | tempus_fugit_minecraft/model.py:151-156 | the first sampled block is the start's block, and sampling after one step shifts the sample index by one |
| Collision.March | tempus_fugit_minecraft/model.py:151-157 | the loop of hit_test: no hit comes with no previous block; a hit is in the world, and the previous block returned is empty |
| Collision.HitTest | tempus_fugit_minecraft/model.py:135-157 | hit_test returns (None, None) or a block in the world together with a different previous position |
| Collision.ClearShift | tempus_fugit_minecraft/model.py:151-156 | the first n + 1 samples are empty exactly when the start is empty and the n samples after one step are |
| Collision.MarchFirstHit | tempus_fugit_minecraft/model.py:151-157 | the loop finds nothing exactly when all n samples are empty; otherwise it returns the first non-empty sample j, and as previous block the sample before j (the given one when j = 0) |
| Collision.HitTestFirstHit | tempus_fugit_minecraft/model.py:135-157 | hit_test returns the first block met along the line within max_distance × 8 steps, together with the block sampled before it, and (None, None) exactly when every sample is empty |
| WorldStore.ExposedNextToEmpty | tempus_fugit_minecraft/model.py:159-170 | every neighbour of an empty position is exposed |
| WorldStore.MeshesUpdate | tempus_fugit_minecraft/model.py:245-283 | the meshes of the shown blocks follow showing (one mesh added) and hiding (that mesh removed) |
| WorldStore.RunOpsAppend | tempus_fugit_minecraft/model.py:345-369 | running two queues one after the other is running their concatenation, and it fails exactly when one of the two does |
| WorldStore.DrainedRendered | tempus_fugit_minecraft/model.py:364-369 | an empty queue with the renderer matching the shown blocks is in step |
| WorldStore.ShowHideKeepRendered | tempus_fugit_minecraft/model.py:227-283 | deferred show and hide keep the renderer in step once the queue is run; immediate show and hide keep a drained store drained |
| WorldStore.Settle | tempus_fugit_minecraft/model.py:213-225 | one pass of the neighbour loop: the block at q ends up shown exactly when it is exposed. Nothing else changes, no shown block is left undrawn, and a drained store stays drained |
| WorldStore.SettleFaces | tempus_fugit_minecraft/model.py:206-225 | after the first k faces, each of those neighbours in the world is shown exactly when exposed, and everything else is as before |
| WorldStore.SettleFacesNoop | tempus_fugit_minecraft/model.py:206-225 | the neighbour check changes nothing when the neighbours are already settled |
| WorldStore.CheckNeighborsSettles | tempus_fugit_minecraft/model.py:206-225 | after check_neighbors the neighbours are settled and the other positions untouched; so running it twice is running it once |
| WorldStore.SectorListMembers | tempus_fugit_minecraft/model.py:172-204 | under the sector index, a sector's list holds exactly the world positions in that sector, each once |
| WorldStore.RemoveFirst | tempus_fugit_minecraft/model.py:199 | list.remove: removing a missing element leaves the list as it is |
| WorldStore.RemoveFirstCount | tempus_fugit_minecraft/model.py:199 | list.remove takes exactly one occurrence out of the multiset of the list |
| WorldStore.RemoveFirstNoRepeats | tempus_fugit_minecraft/model.py:199 | in a list without repeats, list.remove removes exactly that element and keeps the rest without repeats |
| WorldStore.AfterRemove | tempus_fugit_minecraft/model.py:190-204 | remove_block: the position leaves the world and its sector's list, and the queue is untouched. A deferred removal leaves shown and drawn blocks as they are. No shown block is left undrawn |
| WorldStore.Placed | tempus_fugit_minecraft/model.py:172-183 | add_block before drawing: the world maps the position to the new kind and the queue is untouched |
| WorldStore.AfterAdd | tempus_fugit_minecraft/model.py:172-188 | add_block: the world gets the new kind and the sector list records the position. A deferred add shows and draws nothing |
| WorldStore.IndexAfterUnrecord | tempus_fugit_minecraft/model.py:190-199 | removing a position from the world and from its sector's list keeps the sector index exact |
| WorldStore.IndexAfterRecord | tempus_fugit_minecraft/model.py:172-183 | adding a new position to the world and to its sector's list keeps the sector index exact |
| WorldStore.AddRemoveKeepIndex | tempus_fugit_minecraft/model.py:172-204 | both add_block and remove_block keep the sector index exact, and an added position appears once in its sector's list |
| WorldStore.AddKeepsIndex | tempus_fugit_minecraft/model.py:172-188 | add_block keeps the sector index exact |
| WorldStore.RemoveReadyIndexed | tempus_fugit_minecraft/model.py:190-204 | under the sector index, remove_block can run exactly when the position is in the world and, if shown, drawn |
| WorldStore.RemoveNowVisibility | tempus_fugit_minecraft/model.py:190-204 | an immediate removal hides and erases the block, and shows every neighbour still in the world. Positions other than the block and its six neighbours are untouched |
| WorldStore.AddNowStages | tempus_fugit_minecraft/model.py:172-188 | an immediate add is placing, then showing the block if exposed, then the neighbour check |
| WorldStore.AddNowShowsExposed | tempus_fugit_minecraft/model.py:184-188 | after an immediate add the block is shown exactly when exposed, and when exposed it is drawn with its own mesh |
| WorldStore.AddNowSettlesNeighbors | tempus_fugit_minecraft/model.py:184-188 | after an immediate add every neighbour in the world is shown exactly when exposed |
| WorldStore.AddNowFrame | tempus_fugit_minecraft/model.py:172-188 | an immediate add touches no position other than the block and its six neighbours |
| WorldStore.DrainedReady | tempus_fugit_minecraft/model.py:172-204 | with nothing queued, immediate add and remove of a world block cannot fail |
| WorldStore.ImmediateKeepsDrained | tempus_fugit_minecraft/model.py:172-204 | immediate add and remove keep the renderer exactly matching the shown blocks |
| WorldStore.RemoveNowDrained | tempus_fugit_minecraft/model.py:190-204 | an immediate removal keeps a drained store drained |
| WorldStore.ShownStaysInWorld | tempus_fugit_minecraft/model.py:172-204 | immediate removal, immediate add and a deferred add of a new position show only blocks that are in the world |
| WorldStore.RemoveNowShownInWorld | tempus_fugit_minecraft/model.py:190-204 | an immediate removal shows only blocks of the world |
| WorldStore.DeferredRemoveLeavesShown | tempus_fugit_minecraft/model.py:190-204 | a deferred removal of a shown block leaves it shown although it is no longer in the world |
| WorldStore.PutBlock | tempus_fugit_minecraft/model.py:181 | storing a kind at a position changes only that position; the world grows by one exactly when the position was empty |
| WorldStore.TakeBlock | tempus_fugit_minecraft/model.py:197 | deleting a position shrinks the world by one and keeps every other entry |
| WorldStore.AddWorld | tempus_fugit_minecraft/model.py:172-188 | add_block sets the position's kind and keeps every other position of the world |
| WorldStore.RemoveWorld | tempus_fugit_minecraft/model.py:190-204 | remove_block empties the position, shrinks the world by one and keeps every other position |
| WorldStore.ShowUpTo | tempus_fugit_minecraft/model.py:285-294 | after the first k positions of a sector, the blocks shown are those shown before plus the exposed ones among the k, with the kinds of the world. Nothing is drawn at once, the queue only grows, and the renderer stays in step |
| WorldStore.HideUpTo | tempus_fugit_minecraft/model.py:296-305 | after the first k positions, exactly those are no longer shown; the queue only grows and the renderer stays in step |
| WorldStore.SectorShowHide | tempus_fugit_minecraft/model.py:285-305 | showing a sector shows exactly its exposed blocks, and hiding it hides exactly its blocks |
| WorldStore.DiskMember | tempus_fugit_minecraft/model.py:307-335 | a sector is near the centre exactly when it is within 4 sectors on both axes and within distance 5 of it |
| WorldStore.DiskCorners | tempus_fugit_minecraft/model.py:307-335 | the disk excludes the corner (4, 4) and includes (3, 4), (4, 3) and the centre |
| WorldStore.SameSectorUnchanged | tempus_fugit_minecraft/model.py:307-335 | changing to the same sector with nothing queued changes nothing |
| WorldStore.DequeueKeepsRendered | tempus_fugit_minecraft/model.py:345-350 | running the oldest queued call of an in-step store cannot fail, keeps it in step, and shortens the queue by one |
| WorldStore.AfterRunPrefix | tempus_fugit_minecraft/model.py:352-362 | running up to n calls runs the first min(n, length) queued calls, oldest first, and leaves the rest queued |
| WorldStore.RunAllDrains | tempus_fugit_minecraft/model.py:364-369 | running the whole queue of an in-step store leaves the renderer matching the shown blocks exactly |
| WorldStore.RunKeepsRendered | tempus_fugit_minecraft/model.py:352-362 | any number of processing steps keeps the renderer in step |
| WorldStore.AfterRunAdd | tempus_fugit_minecraft/model.py:352-362 | processing n calls then m calls is processing n + m calls |
| WorldStore.Put | tempus_fugit_minecraft/model.py:172-183 | a deferred add of one block records it in the world and changes nothing on screen |
| WorldStore.PutIsAdd | tempus_fugit_minecraft/model.py:172-188 | under the sector index, a deferred add_block can always run, is Put, and keeps the index exact |
| WorldStore.PutIsPlaced | tempus_fugit_minecraft/model.py:172-183 | a deferred add is the placing step alone |
| WorldStore.PlaceAll | tempus_fugit_minecraft/model.py:91-133 | placing a list of blocks without drawing sets the world to the list applied in order, and leaves shown blocks, drawings and queue as they are |
| WorldStore.PlaceAllIndexed | tempus_fugit_minecraft/model.py:91-133 | placing any list of blocks keeps the sector index exact |
| WorldStore.PlaceNext | tempus_fugit_minecraft/model.py:91-133 | each deferred add of a generator loop can run and extends the placed prefix by one |
| WorldStore.WorldAfterAppend | tempus_fugit_minecraft/model.py:91-133 | placing two lists one after the other is placing their concatenation |
| WorldStore.PlaceAllAppend | tempus_fugit_minecraft/model.py:91-133 | the same for the whole store |
| WorldStore.WorldAfterUntouched | tempus_fugit_minecraft/model.py:91-133 | after placing, a position is occupied exactly when it was before or some placement names it; one no placement names keeps its kind |
| WorldStore.WorldAfterUniform | tempus_fugit_minecraft/model.py:91-133 | a position that every placement naming it gives kind b holds b afterwards |
| PlayerState.JumpSpeedReachesMaxHeight | tempus_fugit_minecraft/player.py:19-26 | JUMP_SPEED is sqrt(2 · GRAVITY · MAX_JUMP_HEIGHT) up to 1e−14 in its square, so a jump peaks at MAX_JUMP_HEIGHT |
| PlayerState.Faster | tempus_fugit_minecraft/player.py:108-115 | speed_up adds 5 exactly when the speed is at most 15, and otherwise keeps it |
| PlayerState.Slower | tempus_fugit_minecraft/player.py:117-124 | speed_down subtracts 5 exactly when the speed is above 5, and otherwise keeps it |
| PlayerState.SpeedStaysOnLevels | tempus_fugit_minecraft/player.py:108-124 | from a level in {5, 10, 15, 20}, any sequence of speed changes stays on those levels |
| PlayerState.SpeedStepsUndo | tempus_fugit_minecraft/player.py:108-124 | speed_down undoes speed_up below the top level, and speed_up undoes speed_down above the bottom level; 20 and 5 are fixed points |
| PlayerState.SpeedExtremes | tempus_fugit_minecraft/player.py:108-124 | four speed-ups go from 5 to 20, and four slow-downs go back |
| PlayerState.StrafeIndex | tempus_fugit_minecraft/player.py:35-40 | forward and backward use strafe[0], left and right strafe[1] |
| PlayerState.StrafeStep | tempus_fugit_minecraft/player.py:126-152 | each direction moves its component by ±1 |
| PlayerState.Moved | tempus_fugit_minecraft/player.py:126-152 | move_* changes only its own strafe component, by its step |
| PlayerState.Stopped | tempus_fugit_minecraft/player.py:171-197 | stop_* changes only its own strafe component, against its step |
| PlayerState.StopUndoesMove | tempus_fugit_minecraft/player.py:126-197 | stopping undoes moving, and moving undoes stopping |
| PlayerState.StopIsOppositeMove | tempus_fugit_minecraft/player.py:126-197 | stopping forward is moving backward, and so on for each direction |
| PlayerState.SteeredAllSums | tempus_fugit_minecraft/model.py:557-581 | handle_movement adds backward − forward to strafe[0] and right − left to strafe[1], each input counted as +1, 0 or −1. From rest with tri-state inputs the result is [backward − forward, right − left] |
| PlayerState.JumpIdempotent | tempus_fugit_minecraft/player.py:154-160 | jumping again in mid-air changes nothing, and a jump always leaves a non-zero vertical speed |
| PlayerState.Selected | tempus_fugit_minecraft/player.py:162-169 | the selected block is always in the inventory, and is the indexed one for an index in range |
| PlayerState.SelectedPeriodic | tempus_fugit_minecraft/player.py:162-169 | selection wraps around: indices that differ by the inventory size select the same block |
| PlayerState.SelectedExamples | tempus_fugit_minecraft/player.py:162-169 | index −1 selects the last block (leaves), and index 6 the second (grass) |
| PlayerState.ClampPitch | tempus_fugit_minecraft/player.py:210 | the pitch is clamped into [−90, 90] and kept when already inside |
| PlayerState.Turned | tempus_fugit_minecraft/player.py:199-211 | adjust_sight turns the yaw by 0.15 · dx without bound, and the pitch by 0.15 · dy, clamped |
| PlayerState.TurnedExamples | tempus_fugit_minecraft/player.py:199-211 | one mouse unit turns by 0.15°; a large motion stops the pitch at ±90° |
| PlayerState.SightVectorUnit | tempus_fugit_minecraft/player.py:57-71 | the sight vector has length 1 |
| PlayerState.MotionVectorCases | tempus_fugit_minecraft/player.py:73-106 | the three cases of get_motion_vector: at rest it is zero; walking, or strafing sideways, it is the horizontal heading; flying forward or back it follows the pitch up or down |
| PlayerState.KeepWithin | tempus_fugit_minecraft/player.py:279-293 | a coordinate is clamped into [−boundary, boundary] and kept when already inside |
| PlayerState.KeepWithinIdempotent | tempus_fugit_minecraft/player.py:199-211 | clamping twice is clamping once, and the pitch clamp is the same clamp with bound 90 |
| PlayerState.WithinWorld | tempus_fugit_minecraft/player.py:266-276 | the player's x and z are kept inside ±WORLD_SIZE and the height is not touched |
| PlayerState.WithinWorldInside | tempus_fugit_minecraft/player.py:266-276 | a position inside the walls is unchanged |
| PlayerState.WithinWorldExample | tempus_fugit_minecraft/player.py:266-276 | (−260, 25, 280) is brought back to (−160, 25, 160) |
| PlayerState.SpeedBounds | tempus_fugit_minecraft/player.py:213-218 | the current speed is between 5 and 20, and is 15 when flying |
| PlayerState.Fallen | tempus_fugit_minecraft/player.py:249-250 | gravity lowers the vertical speed by dt · GRAVITY, but never below −MAX_FALL_SPEED |
| PlayerState.FallenSlows | tempus_fugit_minecraft/player.py:249-250 | above terminal velocity, falling strictly lowers the speed; at or below it, the speed is −MAX_FALL_SPEED |
| PlayerState.Lift | tempus_fugit_minecraft/player.py:257-259 | when flying the vertical direction is +1 exactly when only ascending and −1 exactly when only descending |
| PlayerState.DisplacementAtRest | tempus_fugit_minecraft/player.py:237-260 | without motion input, a walking player only falls; a hovering flyer (both or neither flight key) stays put; after one second from rest the fall speed is GRAVITY |
| PlayerState.Player.constructor | tempus_fugit_minecraft/player.py:13-55 | a new player stands at the origin, at rest, walking at speed 5, not flying, holding the first of the inventory [brick, grass, sand, trunk, leaves] |
| PlayerState.Player.SpeedUp | tempus_fugit_minecraft/player.py:108-115 | the walking speed becomes Faster of the old speed |
| PlayerState.Player.SpeedDown | tempus_fugit_minecraft/player.py:117-124 | the walking speed becomes Slower of the old speed |
| PlayerState.Player.MoveForward | tempus_fugit_minecraft/player.py:126-131 | strafe[0] decreases by one |
| PlayerState.Player.MoveBackward | tempus_fugit_minecraft/player.py:133-138 | strafe[0] increases by one |
| PlayerState.Player.MoveLeft | tempus_fugit_minecraft/player.py:140-145 | strafe[1] decreases by one |
| PlayerState.Player.MoveRight | tempus_fugit_minecraft/player.py:147-152 | strafe[1] increases by one |
| PlayerState.Player.Jump | tempus_fugit_minecraft/player.py:154-160 | a player at rest vertically gets JUMP_SPEED; otherwise nothing changes |
| PlayerState.Player.SelectActiveItem | tempus_fugit_minecraft/player.py:162-169 | the held block becomes the inventory entry at the index modulo the inventory size |
| PlayerState.Player.StopForward | tempus_fugit_minecraft/player.py:171-176 | strafe[0] increases by one |
| PlayerState.Player.StopBackward | tempus_fugit_minecraft/player.py:178-183 | strafe[0] decreases by one |
| PlayerState.Player.StopLeft | tempus_fugit_minecraft/player.py:185-190 | strafe[1] increases by one |
| PlayerState.Player.StopRight | tempus_fugit_minecraft/player.py:192-197 | strafe[1] decreases by one |
| PlayerState.Player.AdjustSight | tempus_fugit_minecraft/player.py:199-211 | the rotation turns as Turned says, and the pitch stays within [−90, 90] |
| PlayerState.Player.ToggleFlight | tempus_fugit_minecraft/player.py:220-225 | flying is switched |
| PlayerState.Player.Update | tempus_fugit_minecraft/player.py:227-264 | the player moves to where the collision function puts the displaced position. The vertical speed is then 0 after a floor or ceiling stop, unchanged when flying, and otherwise lowered by gravity |
| PlayerState.Player.CheckPlayerWithinWorldBoundaries | tempus_fugit_minecraft/player.py:266-276 | the position becomes WithinWorld of the old one |
| Terrain.CountOfAppend | tempus_fugit_minecraft/world.py:45-63 | counting a kind over a concatenation adds the two counts |
| Terrain.RepIsProduct | tempus_fugit_minecraft/world.py:54-55 | n rows of k columns are n · k cells |
| Terrain.Wall | tempus_fugit_minecraft/world.py:59-62 | the wall of a column has one stone per height |
| Terrain.GenerateBaseLayer | tempus_fugit_minecraft/world.py:45-63 | generate_base_layer returns the base layer of half-width WORLD_SIZE, row by row |
| Terrain.AppendRow | tempus_fugit_minecraft/world.py:55-62 | the z loop appends one row of columns |
| Terrain.AppendColumn | tempus_fugit_minecraft/world.py:57-62 | one column: grass at y = −2, stone at y = −3 and, on the perimeter, stone from y = −2 to 2 |
| Terrain.WallMembers | tempus_fugit_minecraft/world.py:59-62 | the wall holds exactly stones in the column, from y = −2 up |
| Terrain.ColumnMembers | tempus_fugit_minecraft/world.py:57-62 | a column holds exactly its grass, its stone below it and, on the perimeter, its wall |
| Terrain.RowMembers | tempus_fugit_minecraft/world.py:55-62 | a row holds exactly the columns of its z range |
| Terrain.RowsMembers | tempus_fugit_minecraft/world.py:54-62 | the rows hold exactly the columns of their x and z ranges |
| Terrain.BaseLayerMembers | tempus_fugit_minecraft/world.py:45-63 | the base layer holds only grass and stone. Grass lies exactly on the floor y = −2 of the square. Stone lies exactly under it at y = −3, and in the walls from y = −2 to 2 on the perimeter |
| Terrain.WallCount | tempus_fugit_minecraft/world.py:59-62 | a wall of n cells is n stones and no grass |
| Terrain.ColumnCount | tempus_fugit_minecraft/world.py:57-62 | a column has one grass and one stone, six stones on the perimeter |
| Terrain.RowGrassCount | tempus_fugit_minecraft/world.py:55-58 | a row of n columns has n grass blocks |
| Terrain.RowStoneCount | tempus_fugit_minecraft/world.py:55-62 | a row's stones are one per column plus five per perimeter column |
| Terrain.RowsGrassCount | tempus_fugit_minecraft/world.py:54-58 | n rows of k columns hold n · k grass blocks |
| Terrain.RowsStoneCount | tempus_fugit_minecraft/world.py:54-62 | the rows' stone count adds up row by row |
| Terrain.LayerCounts | tempus_fugit_minecraft/world.py:45-63 | the (2w+1)² square holds (2w+1)² grass blocks and (2w+1)² + 40w stones (a five-high wall around 8w perimeter columns) |
| Terrain.BaseLayerCounts | tempus_fugit_minecraft/world.py:45-63 | the same counts for the base layer of half-width w |
| Terrain.Paint | tempus_fugit_minecraft/world.py:105 | painting a list of positions pairs each with the same kind, in order |
| Terrain.PaintAppend | tempus_fugit_minecraft/world.py:98-105 | painting distributes over concatenation |
| Terrain.PaintMembers | tempus_fugit_minecraft/world.py:105 | a painted placement has the paint's kind and one of the positions |
| Terrain.PatchStripMembers | tempus_fugit_minecraft/world.py:100-105 | one z strip of a patch holds exactly the cells of its x that pass the round test (and the spawn-area test for hills) |
| Terrain.PatchRowsMembers | tempus_fugit_minecraft/world.py:99-105 | the x strips of a patch hold exactly the cells of their range that pass the tests |
| Terrain.PatchMembers | tempus_fugit_minecraft/world.py:99-105 | a patch is exactly the cells of the square of half-side s, at height y, within distance s + 1 of the centre (and, for hills, outside distance 5 of the origin) |
| Terrain.PatchStripNoRepeats | tempus_fugit_minecraft/world.py:100-105 | a strip has no repeated cell |
| Terrain.PatchRowsNoRepeats | tempus_fugit_minecraft/world.py:99-105 | the strips of a patch have no repeated cell |
| Terrain.PatchNoRepeats | tempus_fugit_minecraft/world.py:99-105 | a patch has no repeated cell |
| Terrain.GenerateHill | tempus_fugit_minecraft/world.py:84-107 | generate_hill with its draws as parameters returns the hill: layers from y = −1 up, each one cell narrower |
| Terrain.AppendHillLayer | tempus_fugit_minecraft/world.py:99-105 | the x loop appends one layer |
| Terrain.AppendHillStrip | tempus_fugit_minecraft/world.py:100-105 | the z loop appends one strip |
| Terrain.HillLayersMembers | tempus_fugit_minecraft/world.py:98-106 | the first k layers hold exactly the cells of the patch of half-side side − (y + 1) at each height y from −1 to k − 2 |
| Terrain.HillMembers | tempus_fugit_minecraft/world.py:84-107 | a hill is exactly its kind on the patch cells of each height, the half-side shrinking by one per layer |
| Terrain.GenerateHills | tempus_fugit_minecraft/world.py:66-81 | one hill per draw, in order |
| Terrain.HillsMember | tempus_fugit_minecraft/world.py:66-81 | every placement of the hills belongs to one of the drawn hills |
| Terrain.HillInside | tempus_fugit_minecraft/world.py:66-107 | with the game's ranges, a hill is grass, sand or brick, between heights −1 and 4, and two cells inside the walls |
| Terrain.Trunk | tempus_fugit_minecraft/world.py:161-163 | a trunk of height h is h placements |
| Terrain.Crown | tempus_fugit_minecraft/world.py:166-170 | a crown is 75 placements |
| Terrain.GenerateSingleTree | tempus_fugit_minecraft/world.py:145-171 | generate_single_tree returns the trunk bottom up, then the leaves in dx, dy, dz order |
| Terrain.CrownMembers | tempus_fugit_minecraft/world.py:166-170 | the crown is exactly the leaves of the 5 × 3 × 5 box above the trunk |
| Terrain.CrownNoRepeats | tempus_fugit_minecraft/world.py:166-170 | the 75 leaves are at 75 different cells |
| Terrain.SingleTreeShape | tempus_fugit_minecraft/world.py:145-171 | a tree has h + 75 placements, starting with the trunk at its base; it holds exactly the trunk column and the leaf box above it |
| Terrain.FindTreeSites | tempus_fugit_minecraft/world.py:122-132 | the suggested places are exactly the grass cells at or below y = 0, at the lowest such level, with the nine cells above them empty |
| Terrain.ChosenSites | tempus_fugit_minecraft/world.py:134-141 | the chosen bases are distinct sites, no more than there are sites, and all of them when the sites ran out |
| Terrain.GenerateTrees | tempus_fugit_minecraft/world.py:110-142 | returns min(num_trees, number of sites) trees of trunk height 5 (80 blocks each); each trunk starts one cell above a distinct tree site |
| Terrain.TreesOnSites | tempus_fugit_minecraft/world.py:134-141 | trees grown on distinct sites have 80 blocks each, and each trunk starts one cell above a site, no two at the same cell |
| Terrain.GenerateSingleCloud | tempus_fugit_minecraft/world.py:200-221 | generate_single_cloud returns the round patch of half-side s at the cloud's height, in one colour |
| Terrain.SingleCloudShape | tempus_fugit_minecraft/world.py:200-221 | a cloud is exactly its colour on the cells within distance s + 1 of its centre at its height, with no cell repeated |
| Terrain.GenerateClouds | tempus_fugit_minecraft/world.py:174-197 | one cloud per draw, in order |
| Terrain.CloudInSky | tempus_fugit_minecraft/world.py:174-221 | with the game's ranges, a cloud is light or dark, between heights 18 and 26, and at most 6 cells outside the walls |
| GameModel.NearbySectors | tempus_fugit_minecraft/model.py:314-326 | the two scans of change_sectors collect exactly the disks of sectors around the old and the new sector (empty for None) |
| GameModel.MovesKeepTerminalVelocity | tempus_fugit_minecraft/model.py:464-467 | the eight motion steps of a tick never make the fall faster than terminal velocity |
| GameModel.HoverStaysPut | tempus_fugit_minecraft/model.py:464-467 | a hovering flyer without motion input in an empty world does not move |
| GameModel.PositionsOf | tempus_fugit_minecraft/model.py:646-654 | the positions of a list of placements, in order |
| GameModel.Groves | tempus_fugit_minecraft/model.py:617-626 | the trunk and leaf lists returned for each chosen base |
| GameModel.SkyMember | tempus_fugit_minecraft/model.py:400-412 | every placement of the sky is a cell of some cloud, in that cloud's colour |
| GameModel.CloudPatches | tempus_fugit_minecraft/model.py:371-397 | one cell list per cloud draw |
| GameModel.CloudColours | tempus_fugit_minecraft/model.py:408-410 | one colour per cloud draw |
| GameModel.HillsAboveFloor | tempus_fugit_minecraft/model.py:111-129 | hills never go below y = −1 |
| GameModel.SkyAboveFloor | tempus_fugit_minecraft/model.py:131-132 | clouds never go below y = 18 |
| GameModel.LandscapeFloor | tempus_fugit_minecraft/model.py:99-132 | inside the walls, the landscape puts grass on the floor at y = −2 and nothing else there; so the floor is low grass and a tree site exists |
| GameModel.SingleTreeLayout | tempus_fugit_minecraft/model.py:628-655 | a tree's placements are its trunk cells, bottom up, followed by its crown |
| GameModel.Model.constructor | tempus_fugit_minecraft/model.py:51-89 | a new model has an empty world, nothing shown, drawn or queued, no sector yet, a new player, and an exact sector index |
| GameModel.Model.Exposed | tempus_fugit_minecraft/model.py:159-170 | the loop over FACES returns true exactly when some neighbour is empty |
| GameModel.Model.DrawBlock | tempus_fugit_minecraft/model.py:245-260 | _show_block stores the block's cube mesh at the position |
| GameModel.Model.EraseBlock | tempus_fugit_minecraft/model.py:277-283 | _hide_block drops the position's mesh |
| GameModel.Model.Enqueue | tempus_fugit_minecraft/model.py:337-343 | _enqueue appends the call to the queue |
| GameModel.Model.ShowBlock | tempus_fugit_minecraft/model.py:227-243 | show_block marks the block shown, then draws it now or queues the drawing |
| GameModel.Model.HideBlock | tempus_fugit_minecraft/model.py:262-275 | hide_block unmarks the block, then erases it now or queues the erasing |
| GameModel.Model.CheckNeighbors | tempus_fugit_minecraft/model.py:206-225 | the store becomes SettleFaces over all six faces, so every neighbour in the world is shown exactly when exposed |
| GameModel.Model.SettleBlock | tempus_fugit_minecraft/model.py:213-225 | one pass of the neighbour loop is Settle |
| GameModel.Model.RemoveBlock | tempus_fugit_minecraft/model.py:190-204 | the store becomes AfterRemove |
| GameModel.Model.AddBlock | tempus_fugit_minecraft/model.py:172-188 | the store becomes AfterAdd |
| GameModel.Model.ShowIfExposed | tempus_fugit_minecraft/model.py:291-294 | one pass of the show_sector loop queues the drawing of an exposed block not yet shown |
| GameModel.Model.ShowSector | tempus_fugit_minecraft/model.py:285-294 | the store becomes AfterShowSector, so exactly the sector's exposed blocks are added to the shown ones |
| GameModel.Model.HideSector | tempus_fugit_minecraft/model.py:296-305 | the store becomes AfterHideSector, so exactly the sector's blocks stop being shown |
| GameModel.Model.ShowSectors | tempus_fugit_minecraft/model.py:327-329 | the shown blocks become the old ones plus the exposed blocks of the given sectors; world, index and drawings are unchanged, and the queue only grows |
| GameModel.Model.HideSectors | tempus_fugit_minecraft/model.py:330-332 | the blocks of the given sectors stop being shown and nothing else does |
| GameModel.Model.ChangeSectors | tempus_fugit_minecraft/model.py:307-335 | the sectors entering the disk are shown and those leaving it hidden, the rest unchanged; moving within one sector changes nothing |
| GameModel.Model.Dequeue | tempus_fugit_minecraft/model.py:345-350 | the oldest queued call runs |
| GameModel.Model.ProcessQueue | tempus_fugit_minecraft/model.py:352-362 | up to `budget` of the oldest queued calls run, in order |
| GameModel.Model.ProcessEntireQueue | tempus_fugit_minecraft/model.py:364-369 | every queued call runs, the queue ends empty, and an in-step renderer ends up matching the shown blocks exactly |
| GameModel.Model.HitTest | tempus_fugit_minecraft/model.py:135-157 | the loop returns what Collision.HitTest specifies: the first block met along the line and the block before it |
| GameModel.Model.CanPassThroughBlock | tempus_fugit_minecraft/model.py:414-425 | true exactly for an empty cell or a non-collidable block |
| GameModel.Model.CheckFace | tempus_fugit_minecraft/model.py:489-507 | the height loop of collide for one face and axis is FaceCheck |
| GameModel.Model.Collide | tempus_fugit_minecraft/model.py:469-508 | returns Collision.Collide's position, and sets the player's vertical speed to 0 exactly when a floor or ceiling stopped it |
| GameModel.Model.CheckFaces | tempus_fugit_minecraft/model.py:485-508 | the face and axis loops compute Collision.Collide |
| GameModel.Model.HandlePrimaryAction | tempus_fugit_minecraft/model.py:437-445 | a breakable block in sight is removed at once; otherwise nothing changes. The sector index stays exact |
| GameModel.Model.HandleSecondaryAction | tempus_fugit_minecraft/model.py:427-435 | when the block in sight can be built on, the held block is added at once in the cell before it; otherwise nothing changes. The sector index stays exact |
| GameModel.Model.HandleAdjustVision | tempus_fugit_minecraft/model.py:510-520 | the player turns as Turned says |
| GameModel.Model.HandleChangeActiveBlock | tempus_fugit_minecraft/model.py:522-529 | the held block becomes Selected of the index |
| GameModel.Model.HandleSpeedChange | tempus_fugit_minecraft/model.py:531-541 | the walking speed goes one level up or down |
| GameModel.Model.HandleJump | tempus_fugit_minecraft/model.py:543-548 | the player jumps |
| GameModel.Model.HandleFlightToggle | tempus_fugit_minecraft/model.py:550-555 | flying is switched |
| GameModel.Model.SteerOne | tempus_fugit_minecraft/model.py:570-576 | input 0 leaves the strafe, 1 moves, anything else stops |
| GameModel.Model.HandleMovement | tempus_fugit_minecraft/model.py:557-581 | the strafe becomes SteeredAll of the four inputs |
| GameModel.Model.HandleFlight | tempus_fugit_minecraft/model.py:584-588 | a non-zero ascend input sets ascend to (input == 1); only when it is zero does a non-zero descend input set descend |
| GameModel.Model.UpdateSectors | tempus_fugit_minecraft/model.py:454-460 | the queue is processed within the budget. On entering a new sector, the sectors entering the disk are shown and those leaving it hidden. On the first tick the queue is drained. The renderer stays in step and the sector is recorded |
| GameModel.Model.MovePlayer | tempus_fugit_minecraft/model.py:464-467 | eight player updates of dt each, with collide as the collision function |
| GameModel.Model.Update | tempus_fugit_minecraft/model.py:447-467 | one tick. The sectors and queue change as in UpdateSectors: within one sector the queue is processed within the budget; on a sector change the blocks of entering sectors are shown if exposed and those of leaving sectors hidden; the first tick drains the queue. Then the player is clamped inside the walls and moved by eight steps of min(dt, 0.2)/8 |
| GameModel.Model.AddNext | tempus_fugit_minecraft/model.py:104-128 | a deferred add_block of a generator loop is the next step of the placements |
| GameModel.Model.Initialize | tempus_fugit_minecraft/model.py:91-133 | the world becomes the base layer, the hills, the clouds and the trees, none of them drawn. The trees are min(num_trees, number of sites) distinct sites of the world before planting |
| GameModel.Model.BuildWorld | tempus_fugit_minecraft/model.py:91-133 | the same for a world of any half-width |
| GameModel.Model.PlaceLandscape | tempus_fugit_minecraft/model.py:99-132 | the base layer, then the hills, then the clouds are placed |
| GameModel.Model.PlaceGround | tempus_fugit_minecraft/model.py:99-129 | the base layer, then the hills are placed |
| GameModel.Model.PlaceBaseLayer | tempus_fugit_minecraft/model.py:99-109 | the base layer is placed |
| GameModel.Model.PlaceHills | tempus_fugit_minecraft/model.py:111-129 | one hill per draw is placed, in order |
| GameModel.Model.PlaceSky | tempus_fugit_minecraft/model.py:131-132 | one cloud per draw is placed, in its colour |
| GameModel.Model.AddBaseRows | tempus_fugit_minecraft/model.py:101-109 | the x loop places the rows of the base layer |
| GameModel.Model.AddBaseRow | tempus_fugit_minecraft/model.py:102-109 | the z loop places one row |
| GameModel.Model.AddBaseColumn | tempus_fugit_minecraft/model.py:104-109 | one column: grass, the stone under it and, on the perimeter, the wall |
| GameModel.Model.AddHills | tempus_fugit_minecraft/model.py:113-129 | the hill loop places one hill per draw |
| GameModel.Model.AddHill | tempus_fugit_minecraft/model.py:114-129 | one hill, layer by layer, each one narrower |
| GameModel.Model.AddHillLayer | tempus_fugit_minecraft/model.py:122-128 | one layer, strip by strip |
| GameModel.Model.AddHillStrip | tempus_fugit_minecraft/model.py:123-128 | one strip, skipping cells outside the round and inside the spawn area |
| GameModel.Model.GenerateSingleCloud | tempus_fugit_minecraft/model.py:657-682 | the cells of the round patch at the cloud's height |
| GameModel.Model.GenerateCloudsPositions | tempus_fugit_minecraft/model.py:371-397 | one cell list per draw |
| GameModel.Model.PlaceCloudBlocks | tempus_fugit_minecraft/model.py:400-412 | every cell of each cloud is placed, in that cloud's colour |
| GameModel.Model.AddClouds | tempus_fugit_minecraft/model.py:409-412 | the cloud loop places the clouds in order |
| GameModel.Model.PlaceCloud | tempus_fugit_minecraft/model.py:411-412 | the cells of one cloud are placed in order |
| GameModel.Model.GenerateSingleTree | tempus_fugit_minecraft/model.py:628-655 | the trunk, then the crown, are placed; the trunk and leaf cell lists are returned |
| GameModel.Model.PlantTrunk | tempus_fugit_minecraft/model.py:646-648 | the trunk loop places the trunk bottom up and lists its cells |
| GameModel.Model.PlantCrown | tempus_fugit_minecraft/model.py:650-654 | the crown loops place the 75 leaves and list their cells |
| GameModel.Model.PlantCrownSlice | tempus_fugit_minecraft/model.py:651-654 | one dx slice of 15 leaves |
| GameModel.Model.PlantCrownRow | tempus_fugit_minecraft/model.py:652-654 | one dy row of 5 leaves |
| GameModel.Model.GenerateTrees | tempus_fugit_minecraft/model.py:592-626 | min(num_trees, number of sites) trees of trunk height 5, on distinct tree sites of the world before planting, are placed, and their trunk and leaf lists returned |
| GameModel.Model.PlantTrees | tempus_fugit_minecraft/model.py:617-626 | the tree loop: each tree stands on a site not taken before, and the loop stops early when the sites run out |

## Left out

- Rendering: pyglet batches, textures and OpenGL are not modelled. A drawn block is the `Mesh` data its vertex list is built from.
- Sound effects and background noise, constructed in `__init__`, are not modelled.
- `window.py`, `shaders.py`, `main.py`, `sound.py` and `sound_list.py` are not part of this model. They hold the window, input dispatch, lighting and sound.
- GameModel.Model.ProcessQueue: the source stops after 1/TICKS_PER_SEC seconds of wall-clock time. Here the budget is the number of queued calls allowed to run, which is a parameter.
- PlayerState.Player.Update: the motion vector is an input. `get_motion_vector` and `get_sight_vector` use cos, sin and atan2, which are modelled as given values (`SightVector`, `MotionVector` take the cosines and sines as parameters).
- PlayerState.JumpSpeedReachesMaxHeight: JUMP_SPEED is the decimal constant of the double `math.sqrt(40)`. The model does not compute the square root.
- Floating point: all real-valued arithmetic (positions, speeds, rotation) is exact real arithmetic, not IEEE doubles.
- Randomness: every `random.randint`/`random.choice` of the generators is a parameter (`HillDraw`, `CloudDraw`), restricted to the game's ranges by `ValidHillDraw` and `ValidCloudDraw`. The tree site is an arbitrary choice among the remaining sites.
- GameModel.Model.GenerateTrees: the choice of sites is arbitrary, not uniform, and the order in which Python lists `self.world` is not modelled.
- GameModel.Model.Initialize: the numbers of hills and clouds (240 and 600 for WORLD_SIZE 160) are the lengths of the draw sequences, not fixed constants. The number of trees is a parameter.
- GameModel.Model.ShowSectors: the shown blocks are stated exactly. The order and content of the queued calls are not: Python set iteration order is not fixed, so only the old queue staying a prefix is stated.
- GameModel.Model.HideSectors: same as ShowSectors for the hidden blocks.
- GameModel.Model.ChangeSectors: same, for the sets `show` and `hide` of change_sectors.
- GameModel.Model.Collide: the write to `player.dy` happens once at the end, from the flag Collision.Collide returns. The source writes it inside the loop, which gives the same final value.
- GameModel.Model.Initialize: only `immediate=False`, the value `__init__` uses, is modelled. `__init__` and `_initialize` are split between the constructor and `Initialize`.
- GameModel.Model.BuildWorld: takes the half-width of the world as a parameter. `Initialize` passes WORLD_SIZE.
- GameModel.Model.PlaceLandscape: requires an exact sector index, as every Place method does. `Initialize` establishes it from `Valid()`.
- Blocks.NewBlock: blocks are values, so two blocks with the same name, textures and flags are equal. In the source a block is an object compared by identity. The eight catalogue kinds are pairwise different either way (`KindsDistinct`).
- Geometry.Square: the squares of the round tests are computed as `Square`, which is proved equal to the product (`SquareIsProduct`).
- Terrain.FindTreeSites, Terrain.GenerateTrees and GameModel.Model.GenerateTrees: require that some grass block lies at or below y = 0. Without one, the source's `min()` over an empty list raises ValueError. That error path is not modelled. `Initialize` always meets the requires, because it calls them after the base layer is placed (`LandscapeFloor`).
- GameModel.Model.HideBlock: requires the position to be shown. With `immediate`, it also requires the position to be drawn, because the source's `_shown.pop` raises otherwise. The same holds for the requires of RemoveBlock and AddBlock (`RemoveReady`, `AddReady`). It also holds for the requires of HandlePrimaryAction and HandleSecondaryAction, which pass the same condition on for the block in sight. The source can raise this KeyError: breaking a block that is shown while its drawing is still queued reaches `_shown.pop`. The model states when these calls succeed rather than modelling the exception.
