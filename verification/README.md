# Mario platformer core, modelled in Dafny

This project models the core of the "3-Mario" series of browser platformer
builds (Mario-4 to Mario-9). It covers:

- the player entity of each build, with its walking, jumping, falling and wall
  rules;
- the state machine states that drive the player every frame;
- the tile grid, including its point-to-tile lookup and its collision probes;
- the level generators;
- the frame-cycling sprite animation;
- the Mario-8 level entity list and the snail's particle-burst death.

Positions and velocities are `real`. A JavaScript `TypeError` that escapes an
update is modelled explicitly:

- A grid read of a row past the last one throws. `Completion.Throw` models it.
- A read past the end of a row yields `undefined`. `Slot.Undefined` models it.
- A mutating method that can hit either of these returns `ok`. `ok` is false
  when the update stopped part-way; the state reached up to that point is kept.

Inputs from outside are parameters:

- the keyboard is a `Keys(a, d, space)` record;
- a random draw is a value in its documented range (`ColumnDraw`, the tile and
  topper set numbers);
- the shared timer becomes the number of times it fired its task during an
  update (`fired`);
- which entities touch the player is a set (`overlapping`);
- which entities or particles ask to be removed after their own update is a set
  (`flagged`, `alive`).

Each state update has two parts:

- a function that computes the next player state (`IdleTick`, `WalkTick`,
  `FallTick`, `JumpTick`, `FallingTick`, `AfterWalls`, `AfterAbove`,
  `MovementTick`, `Handled`), with the properties the game relies on as its
  `ensures`;
- a method on the player object that is proved to reach exactly that state.

Modules follow the source files. `Common`, `Enums`, `Physics` and `Collision`
hold what several builds share: the velocity updates, the canvas wall clamps
and the tile probes.

## Model

| member | source | states |
|---|---|---|
| Common.Filter | src/Mario-8/src/objects/Level.js:31 | `Array.filter`: the result only holds elements of the input that pass the test, and every passing element appears in it |
| Common.FilterAppend | src/Mario-8/src/objects/Level.js:30-32 | filtering a concatenation is the concatenation of the filtered parts, so the order of the kept elements is the input order |
| Physics.StepLeft | src/Mario-7/src/entities/Player.js:112-115 | `moveLeft` speed: the larger of `vx - 5*0.95` and `-limit` (at least both, and equal to one); from a speed inside the limit it stays inside and does not increase |
| Physics.StepRight | src/Mario-7/src/entities/Player.js:117-120 | `moveRight` speed: the smaller of `vx + 5*0.95` and `limit` (at most both, and equal to one); from a speed inside the limit it stays inside and does not decrease |
| Physics.StopStep | src/Mario-7/src/entities/Player.js:122-130 | `stop`: the speed is `vx * friction` when that is at least 0.1 in size, and exactly 0 otherwise; so it never grows in size or changes sign, and snaps to 0 below 0.1 |
| Physics.StopStepsAtRest | src/Mario-7/src/entities/Player.js:122-130 | a player at rest stays at rest through any number of `stop` calls |
| Physics.StopStepGain | src/Mario-7/src/entities/Player.js:122-130 | each `stop` that does not stop the player removes at least `(1 - friction) * 0.1` of speed |
| Physics.StopReachesRest | src/Mario-7/src/entities/Player.js:122-130 | braking terminates: a speed below `0.1 + k*(1-f)*0.1` is exactly 0 after `k + 1` calls of `stop` |
| Collision.TilesByDirection | src/Mario-7/src/entities/Player.js:194-248 | `getTilesByDirection`: throws iff one of the probes throws; otherwise it gives one slot per direction, in order, each the slot its probe read |
| Collision.CollidableSlots | src/Mario-7/src/entities/Player.js:184-188 | the `tile?.isCollidable()` filter keeps exactly the collidable tiles of the list (null and undefined are dropped) |
| Collision.CollidableSlotsAppend | src/Mario-7/src/entities/Player.js:184-188 | the filter distributes over concatenation |
| Collision.CollisionTilesByDirection | src/Mario-7/src/entities/Player.js:184-188 | `getCollisionTilesByDirection`: throws exactly when the probes throw; holds only collidable tiles; is non-empty iff some probed direction holds a collidable tile |
| Collision.KeptIffBlocked | src/Mario-7/src/entities/Player.js:184-188 | for the slots read in the given directions, the filtered list is non-empty iff some direction is blocked |
| Collision.DidCollideWithTiles | src/Mario-7/src/entities/Player.js:168-178 | `didCollideWithTiles`: throws iff a probe throws; otherwise true iff at least one (not all) of the probed tiles is collidable |
| Collision.TileCollisionBelow | src/Mario-7/src/states/entity/PlayerIdleState.js:35-37 | footing test: true iff the bottom-left or the bottom-right probe finds a collidable tile; throws iff one of them throws |
| Collision.TileCollisionAbove | src/Mario-7/src/states/entity/PlayerJumpingState.js:43-45 | head test: true iff the top-left or the top-right probe finds a collidable tile; throws iff one of them throws |
| Collision.ClampLeft | src/Mario-5/src/entities/Player.js:136-141 | left canvas wall: afterwards x >= 0; a player past the wall is put at x = 0 with no horizontal speed; otherwise nothing changes; y and vertical speed are kept |
| Collision.LeftCollisions | src/Mario-7/src/entities/Player.js:132-146 | `checkLeftCollisions`: fails iff a tile probe throws, leaving the wall-clamped body; with no tile hit the result is exactly the wall-clamped body; a hit zeroes the horizontal speed, and leaves the clamped position when the LeftTop probe reads no tile; the vertical motion is kept; on a map of placed tiles the player ends at x >= 0 |
| Collision.ClampRightAt | src/Mario-5/src/entities/Player.js:143-148 | right canvas wall: afterwards x <= right edge; a player past it is put on the edge with no horizontal speed; otherwise nothing changes |
| Collision.CanvasWalls | src/Mario-4/src/entities/Player.js:121-133 | both canvas wall checks: afterwards 0 <= x <= right edge (when the canvas is wider than the player); a player between the walls is untouched; the speed is kept or zeroed |
| Collision.RightCollisions | src/Mario-7/src/entities/Player.js:148-162 | `checkRightCollisions`: fails iff a tile probe throws, leaving the wall-clamped body; with no tile hit the result is exactly the body clamped at canvas width - player width; a hit zeroes the horizontal speed, and leaves the clamped position when the RightTop probe reads no tile; on a map of placed tiles the player ends at x <= canvas width - player width |
| Collision.WallChecks | src/Mario-7/src/states/entity/PlayerIdleState.js:19-20 | left then right check: the vertical motion is kept, the horizontal speed is kept or zeroed, and on a map of placed tiles a check with no throw leaves the player left of the right edge |
| Collision.LeftSnapClearsTile | src/Mario-7/src/entities/Player.js:138-145 | when a left tile is hit, the player snaps to the tile's right edge minus one and stops; the left-top probe then reads the next column to the right of that tile |
| Collision.RightSnapClearsTile | src/Mario-7/src/entities/Player.js:154-161 | when a right tile is hit, the player snaps so that its right side touches the tile and stops; the right-top probe then reads the column to the left of that tile |
| Collision.PlainDirectionsReadOrigin | src/Mario-7/src/entities/Player.js:207-242 | a direction with no `case` (Up, Down, Left, Right) leaves the probe at (0, 0) and so reads the map's top-left cell |
| Collision.AirSteer | src/Mario-7/src/states/entity/PlayerJumpingState.js:28-38 | air steering: the vertical motion is kept; with neither key it brakes by `StopStep` and cannot fail; a gives `StepLeft` and d `StepRight`, or 0 when a wall stopped the player; the horizontal speed stays within the limit |
| Tile.Tile.IsCollidable | src/Mario-7/src/objects/Tile.js:29-31 | a tile blocks the player iff it is Ground |
| Tilemap.NewTilemap | src/Mario-7/src/objects/Tilemap.js:12-18 | the canvas size is the grid size times 16 pixels |
| Tilemap.PointToTile | src/Mario-7/src/objects/Tilemap.js:36-45 | a point outside the guard gives null; a point inside with a row and column in the grid gives that tile; the lookup throws only when the row index is past the last row |
| Tilemap.PointToTileInside | src/Mario-7/src/objects/Tilemap.js:36-45 | on a rectangular map, a point strictly inside the canvas reads the tile whose 16-pixel cell contains it |
| Tilemap.PointToTileFarEdges | src/Mario-7/src/objects/Tilemap.js:37-44 | the guard admits the far edges: x equal to the canvas width reads `undefined`, and y equal to the canvas height throws |
| Entities.Entity.constructor | src/Mario-8/src/entities/Player.js:29-30 | an entity starts alive and not marked for clean-up, at the given position and size |
| Entities.Entity.Update | src/Mario-8/src/objects/Level.js:17-19 | an entity's own update can only set its clean-up mark; it never clears it, and never moves or kills the entity |
| Animation.AdvancedAdds | src/Mario-4/lib/Animation.js:29-33 | n timer steps followed by m steps are n + m steps |
| Animation.AdvancedCounts | src/Mario-4/lib/Animation.js:29-33 | steps that do not pass the last frame advance one frame each |
| Animation.FullCycle | src/Mario-4/lib/Animation.js:29-33 | after as many steps as there are frames, the animation is back on the frame it started from |
| Animation.Animation.constructor | src/Mario-9/lib/Animation.js:4-11 | a new animation keeps its frames and interval and starts on frame 0 |
| Animation.Animation.Default | src/Mario-4/lib/Animation.js:11-18 | with no interval given, the interval is 1 second |
| Animation.Animation.Step | src/Mario-4/lib/Animation.js:29-33 | the timer task moves to the next frame, wrapping after the last, and the frame stays a valid index |
| Animation.Animation.Update | src/Mario-4/lib/Animation.js:20-27 | a one-frame animation never changes frame; otherwise the frame advances once per timer firing, wrapping |
| Animation.Animation.CurrentFrame | src/Mario-4/lib/Animation.js:35-37 | the sprite returned is one of the animation's frames |
| Mario4LevelMaker.GenerateLevel | src/Mario-4/src/services/LevelMaker.js:12-31 | `height` rows of `width` tiles; the tile in row y, column x is at (x, y), and it is Sky above row 14 and Ground from row 14 down |
| Mario4LevelMaker.FlatRowGrows | src/Mario-4/src/services/LevelMaker.js:22-28 | pushing column n's tile onto a row of n tiles gives the row of n + 1 tiles |
| Mario4Player.MovementTick | src/Mario-4/src/entities/Player.js:135-151 | `handleMovement`: the position is the wall-clamped one; a faces left and its speed is `StepLeft` of the clamped speed, d faces right with `StepRight`; with no key the speed is `StopStep` with friction 0.95, the direction is kept, and the pose turns idle iff the speed reaches 0; the speed stays within the limit |
| Mario4Player.JumpTick | src/Mario-4/src/entities/Player.js:153-170 | `handleJump`: the player never ends below the ground; sinking past it snaps onto it, stops the fall and shows idle; space on the ground jumps (speed -325 plus one gravity step) and shows the jump pose; otherwise gravity acts only while moving vertically |
| Mario4Player.Handled | src/Mario-4/src/entities/Player.js:46-49 | movement then jump: the player stays between the canvas walls and above the ground, keeps the speed limit, and faces the key held |
| Mario4Player.Player.constructor | src/Mario-4/src/entities/Player.js:24-44 | the player starts at rest, facing right, 224 pixels down less its height as its ground, with three distinct animations on frame 0 and the idle one current |
| Mario4Player.Player.MoveLeft | src/Mario-4/src/entities/Player.js:98-102 | faces left, switches to the moving animation, and steps the speed left within the limit |
| Mario4Player.Player.MoveRight | src/Mario-4/src/entities/Player.js:104-108 | faces right, switches to the moving animation, and steps the speed right within the limit |
| Mario4Player.Player.Stop | src/Mario-4/src/entities/Player.js:110-119 | brakes by the friction factor, and switches to the idle animation exactly when the speed snaps to 0 |
| Mario4Player.Player.CheckWalls | src/Mario-4/src/entities/Player.js:121-133 | the canvas wall checks, leaving the direction and the animation alone |
| Mario4Player.Player.HandleMovement | src/Mario-4/src/entities/Player.js:135-151 | the object reaches the state `MovementTick` computes |
| Mario4Player.Player.HandleJump | src/Mario-4/src/entities/Player.js:153-170 | the object reaches the state `JumpTick` computes |
| Mario4Player.Player.Handle | src/Mario-4/src/entities/Player.js:46-48 | the object reaches the state `Handled` computes |
| Mario4Player.Player.Update | src/Mario-4/src/entities/Player.js:46-53 | one frame: the handled state moved by velocity times dt; then the current animation, and only that one, advances by the timer firings |
| Mario5Player.Player.constructor | src/Mario-5/src/entities/Player.js:40-62 | the player starts at rest, facing right, with ground height 14 tiles less its height |
| Mario5Player.Player.ChangeState | src/Mario-5/src/entities/Player.js:64-66 | switches the state and leaves the motion alone |
| Mario5Player.Player.MoveLeft | src/Mario-5/src/entities/Player.js:116-119 | faces left and steps the speed left within the limit |
| Mario5Player.Player.MoveRight | src/Mario-5/src/entities/Player.js:121-124 | faces right and steps the speed right within the limit |
| Mario5Player.Player.Stop | src/Mario-5/src/entities/Player.js:126-134 | brakes by the friction factor with the 0.1 snap, keeping the speed limit |
| Mario5Player.Player.CheckLeftCollisions | src/Mario-5/src/entities/Player.js:136-141 | the object reaches the left-wall clamp of its motion |
| Mario5Player.Player.CheckRightCollisions | src/Mario-5/src/entities/Player.js:143-148 | the object reaches the right-wall clamp at canvas width minus player width |
| Mario5Player.Player.CheckWalls | src/Mario-5/src/entities/Player.js:69-70 | both wall checks, in order |
| Mario5Player.Player.AddGravity | src/Mario-6/src/states/entity/PlayerFallingState.js:19 | adds 1000 * dt to the vertical speed and changes nothing else |
| Mario5Player.Player.Move | src/Mario-5/src/entities/Player.js:68-72 | the wall checks, then the position moves by velocity times dt |
| Mario5IdleState.IdleTick | src/Mario-5/src/states/entity/PlayerIdleState.js:18-32 | a or d leads to Walking, else space to Jumping, else the player stays Idle; with a key held the motion is just wall-clamped; otherwise the speed is `StopStep` of the clamped speed with friction 0.95, so it shrinks by that factor and snaps to 0 below 0.1 |
| Mario5IdleState.Update | src/Mario-5/src/states/entity/PlayerIdleState.js:18-32 | the object reaches the state `IdleTick` computes and keeps the speed limit |
| Mario5WalkingState.WalkTick | src/Mario-5/src/states/entity/PlayerWalkingState.js:19-38 | the player goes Idle iff no key is held and the speed is 0; it goes Jumping iff space is held while moving or a key is held; while walking it faces the key held and its speed is `StepLeft` (a), `StepRight` (d) or `StopStep` (no key) of the clamped speed; a transition leaves the motion wall-clamped |
| Mario5WalkingState.Update | src/Mario-5/src/states/entity/PlayerWalkingState.js:19-38 | the object reaches the state `WalkTick` computes and keeps the speed limit |
| Mario5Update.Tick | src/Mario-5/src/entities/Player.js:68-75 | one frame: vertical speed untouched; on the ground the player stays between the canvas walls; Idle follows the key rule; Jumping and Falling only move |
| Mario5Update.Update | src/Mario-5/src/entities/Player.js:68-75 | the object reaches the state `Tick` computes and keeps the speed limit |
| Mario6FallingState.FallTick | src/Mario-6/src/states/entity/PlayerFallingState.js:18-37 | the player never ends below the ground; it lands (Idle, on the ground, no vertical speed, direction kept) iff it was below the ground; otherwise it falls with gravity added, with a facing left at speed `StepLeft` (0 if the left clamp fired), d facing right at speed `StepRight` (0 if the right clamp fired), and no key braking by `StopStep`; x changes only by the wall clamp of the key held, and with no key the position is kept |
| Mario6FallingState.Update | src/Mario-6/src/states/entity/PlayerFallingState.js:18-37 | the object reaches the state `FallTick` computes and keeps the speed limit |
| Mario7FallingState.Ledge | src/Mario-7/src/states/entity/PlayerFallingState.js:40-52 | a side ledge test: true iff both probes read tiles, the lower one collidable and the upper one not; throws iff a probe throws |
| Mario7FallingState.TileCollisionBelowRight | src/Mario-7/src/states/entity/PlayerFallingState.js:40-45 | the right-side ledge test on the right-bottom and right-top probes |
| Mario7FallingState.TileCollisionBelowLeft | src/Mario-7/src/states/entity/PlayerFallingState.js:47-52 | the left-side ledge test on the left-bottom and left-top probes |
| Mario7FallingState.LandingTest | src/Mario-7/src/states/entity/PlayerFallingState.js:21 | the short-circuit `||`: true iff the right ledge holds, or the right test is false and the left one holds; it throws iff the test it reaches throws |
| Mario7FallingState.Landed | src/Mario-7/src/states/entity/PlayerFallingState.js:54-60 | throws iff the bottom-right probe throws; with a tile below, the player is put on top of it and its fall stops; otherwise nothing moves |
| Mario7FallingState.LandingTouchesTileTop | src/Mario-7/src/states/entity/PlayerFallingState.js:55-59 | after a landing the player's feet are exactly on the top edge of the tile found below |
| Mario7FallingState.ResolveCollision | src/Mario-7/src/states/entity/PlayerFallingState.js:54-69 | the object lands as `Landed` says, then goes Walking if a key is held or it still moves sideways, else Idle |
| Mario7FallingState.FallingTick | src/Mario-7/src/states/entity/PlayerFallingState.js:18-37 | a fall ends only on a tile: leaving Falling means the landing test held, and a landing test that holds with a readable BottomRight probe ends the fall on `Landed`; the horizontal motion and the direction are kept, and the state is Idle iff no key is held and the player does not move sideways; with no landing below the canvas bottom the player wraps to y = 0 without steering; still falling, gravity was added; it never enters Jumping; the speed limit is kept |
| Mario7FallingState.Update | src/Mario-7/src/states/entity/PlayerFallingState.js:18-37 | the object reaches the state `FallingTick` computes: a landing on the tile, the wrap to the top, or steering in the air, with the speed limit kept |
| Mario7FallingState.LandOrSteer | src/Mario-7/src/states/entity/PlayerFallingState.js:21-37 | the object reaches the state `AfterGravity` computes |
| Mario7FallingState.AfterGravity | src/Mario-7/src/states/entity/PlayerFallingState.js:21-37 | after gravity: a throwing landing test changes nothing; a holding one lands on `Landed` and leaves Falling (Idle iff no key and no sideways speed), failing iff the BottomRight probe throws; a failing one wraps to y = 0 below the canvas bottom, else steers (facing the key held, vertical motion kept); never Jumping; the speed limit is kept |
| Mario7IdleState.Update | src/Mario-7/src/states/entity/PlayerIdleState.js:18-33 | the wall checks, then the last transition test that holds decides: a or d over lost footing over space; space sets the jump speed even when overridden; fails iff a probe threw |
| Mario7WalkingState.Update | src/Mario-7/src/states/entity/PlayerWalkingState.js:19-41 | the wall checks, then exactly one of: Idle (no key, no speed), Falling (no footing), Jumping (space), move left, move right, brake, in that priority |
| Mario7JumpingState.Update | src/Mario-7/src/states/entity/PlayerJumpingState.js:19-41 | a rise that has stopped turns into a fall; a head bump zeroes the rise and falls; otherwise the player steers in the air; gravity is added last; a throwing probe stops the update |
| Mario7Tick.Update | src/Mario-7/src/entities/Player.js:67-71 | one frame keeps the speed limit, and the state changes only along allowed transitions: Jumping only from the ground with space held, and a fall never turns into a jump |
| Mario7Player.Player.constructor | src/Mario-7/src/entities/Player.js:38-61 | the player starts at rest, facing right, in the Falling state |
| Mario7Player.Player.ChangeState | src/Mario-7/src/entities/Player.js:63-65 | switches state; entering Jumping sets the vertical speed to -325 (the Jumping state's `enter`) |
| Mario7Player.Player.MoveLeft | src/Mario-7/src/entities/Player.js:112-115 | faces left and steps the speed left within the limit |
| Mario7Player.Player.MoveRight | src/Mario-7/src/entities/Player.js:117-120 | faces right and steps the speed right within the limit |
| Mario7Player.Player.Stop | src/Mario-7/src/entities/Player.js:122-130 | brakes with the 0.1 snap, keeping the speed limit |
| Mario7Player.Player.CheckLeftCollisions | src/Mario-7/src/entities/Player.js:132-146 | the object reaches the motion `LeftCollisions` computes |
| Mario7Player.Player.CheckRightCollisions | src/Mario-7/src/entities/Player.js:148-162 | the object reaches the motion `RightCollisions` computes |
| Mario7Player.Player.SteerInAir | src/Mario-7/src/states/entity/PlayerJumpingState.js:28-38 | the object reaches the motion `AirSteer` computes and faces the key held |
| Mario7Player.Player.AddVelocity | src/Mario-7/src/entities/Player.js:69 | the position moves by velocity times dt |
| Mario7Player.Player.AddGravity | src/Mario-7/src/states/entity/PlayerJumpingState.js:40 | adds 1000 * dt to the vertical speed |
| Mario7LevelMaker.CounterInRange | src/Mario-7/src/services/LevelMaker.js:115-128 | the chasm counter is always between 0 and 5 |
| Mario7LevelMaker.LowerRowLength | src/Mario-7/src/services/LevelMaker.js:39-50 | a ground row has one tile per column, short by one while a chasm is still open |
| Mario7LevelMaker.LowerRowAt | src/Mario-7/src/services/LevelMaker.js:39-50 | index j of a ground row holds column j's ground tile when column j has ground; otherwise it holds a chasm tile that records column j + 1, because the column where a chasm starts pushes no ground-row tile |
| Mario7LevelMaker.GroundAtColumn | src/Mario-7/src/services/LevelMaker.js:141-149 | a column with ground has its ground tile in place in every ground row |
| Mario7LevelMaker.LevelShape | src/Mario-7/src/services/LevelMaker.js:25-74 | the map has `height` rows and `width` columns and a canvas 16 times that; sky rows are full; ground rows are full unless a chasm is still open at the end |
| Mario7LevelMaker.LevelTileAt | src/Mario-7/src/services/LevelMaker.js:25-74 | every tile records its own row and the chosen tile and topper sets; it is Ground iff it belongs to a ground column that reaches that row; only a column's top tile has a topper |
| Mario7LevelMaker.LevelTilesPlaced | src/Mario-7/src/services/LevelMaker.js:25-74 | every generated tile lies inside the canvas width, which the collision lemmas need |
| Mario7LevelMaker.InitializeTilemap | src/Mario-7/src/services/LevelMaker.js:82-86 | `height` empty rows |
| Mario7LevelMaker.GenerateEmptySpace | src/Mario-7/src/services/LevelMaker.js:97-101 | one empty tile pushed onto each sky row; ground rows untouched |
| Mario7LevelMaker.GenerateChasm | src/Mario-7/src/services/LevelMaker.js:115-128 | a running chasm pushes empty ground tiles and counts down; an idle counter may start a chasm of 2 to 5 columns |
| Mario7LevelMaker.SetAt | src/Mario-7/src/services/LevelMaker.js:147 | `tiles[y][x] = t`: sets index x, or appends when x is the length, leaving the other tiles alone |
| Mario7LevelMaker.GenerateColumn | src/Mario-7/src/services/LevelMaker.js:141-149 | ground tiles from the column start (pillar or ground height) down, the first one with a topper |
| Mario7LevelMaker.GenerateLevel | src/Mario-7/src/services/LevelMaker.js:25-74 | the loop builds exactly the level `Level` describes for the given draws |
| Mario7LevelMaker.ColumnRowsSkipped | src/Mario-7/src/services/LevelMaker.js:44-47 | a column inside a chasm adds only sky and empty ground tiles |
| Mario7LevelMaker.ColumnRowsBuilt | src/Mario-7/src/services/LevelMaker.js:39-50 | a column outside a chasm completes every row to the next column |
| Mario7LevelMaker.SheetBlockAt | src/Mario-7/src/services/LevelMaker.js:171-181 | within a tile set, the cell of row r and column c sits at index r * sizeX + c |
| Mario7LevelMaker.SheetSetsAt | src/Mario-7/src/services/LevelMaker.js:161-186 | set (tx, ty) sits at index ty * setsX + tx and holds the block whose top-left cell is (sizeX * tx, sizeY * ty) |
| Mario7LevelMaker.GenerateSprites | src/Mario-7/src/services/LevelMaker.js:161-186 | the nested loops build exactly that list of sets |
| Mario8Player.ChargeStep | src/Mario-8/src/entities/Player.js:157-174 | releasing space while charging fires with ten times the (grown) charge; reaching 0.1 while charging fires with `(charge + dt) * 10`, and a charge already at 0.1 fires with ten times it; holding space below the maximum charges by dt; firing resets both fields; the charge stays in [0, 0.1) |
| Mario8Player.Colliders | src/Mario-8/src/entities/Player.js:145-155 | exactly the level entities other than the player itself that overlap it |
| Mario8Player.SomeAliveAppend | src/Mario-8/src/entities/Player.js:145-155 | one more collider kills the player iff it is alive |
| Mario8Player.Player.constructor | src/Mario-8/src/entities/Player.js:29-50 | the player starts alive, at rest, facing right, Falling, not charging |
| Mario8Player.Player.ChangeState | src/Mario-8/src/states/entity/player/PlayerJumpingState.js:22-25 | entering Jumping sets the vertical speed to -325 times the charge multiplier |
| Mario8Player.Player.MoveLeft | src/Mario-8/src/entities/Player.js:74-77 | faces left and steps the speed left by 5 * 0.9 within the limit |
| Mario8Player.Player.MoveRight | src/Mario-8/src/entities/Player.js:79-82 | faces right and steps the speed right by 5 * 0.9 within the limit |
| Mario8Player.Player.Stop | src/Mario-8/src/entities/Player.js:84-92 | brakes by 0.9 with the 0.1 snap |
| Mario8Player.Player.CheckLeftCollisions | src/Mario-8/src/entities/Player.js:94-108 | the object reaches the motion `LeftCollisions` computes on the level's tile map |
| Mario8Player.Player.CheckRightCollisions | src/Mario-8/src/entities/Player.js:110-124 | the object reaches the motion `RightCollisions` computes on the level's tile map |
| Mario8Player.Player.SteerInAir | src/Mario-8/src/states/entity/player/PlayerJumpingState.js:36-46 | the object reaches the motion `AirSteer` computes |
| Mario8Player.Player.AddGravity | src/Mario-8/src/states/entity/player/PlayerJumpingState.js:49 | adds 1000 * dt to the vertical speed |
| Mario8Player.Player.OnEntityCollision | src/Mario-8/src/entities/Player.js:131-135 | touching a live entity kills the player; touching a dead one does nothing |
| Mario8Player.Player.CheckEntityCollisions | src/Mario-8/src/entities/Player.js:145-155 | visits exactly the overlapping entities other than the player; the player dies iff it was dead or one of them is alive |
| Mario8Player.Player.ChargeJump | src/Mario-8/src/entities/Player.js:157-174 | the charge fields follow `ChargeStep`; a fired jump enters Jumping with vy = −325 times its multiplier, and an unfired one leaves state and motion alone |
| Mario8IdleState.AfterWalls | src/Mario-8/src/states/entity/player/PlayerIdleState.js:29-39 | a jump needs a fired charge, and holding space fires nothing until the charge reaches 0.1; a or d wins (Walking); a fall needs no footing; fails iff a probe threw |
| Mario8IdleState.IdleTick | src/Mario-8/src/states/entity/player/PlayerIdleState.js:26-40 | the Idle update never moves the player vertically |
| Mario8IdleState.Transitions | src/Mario-8/src/states/entity/player/PlayerIdleState.js:29-39 | after the wall checks, the object reaches `AfterWalls`, and the player dies iff an overlapping live entity touches it |
| Mario8IdleState.CollideAndCharge | src/Mario-8/src/states/entity/player/PlayerIdleState.js:29-30 | entity collisions, then the charge step |
| Mario8IdleState.Settle | src/Mario-8/src/states/entity/player/PlayerIdleState.js:32-38 | no footing leads to Falling, and a or d to Walking, the later test winning |
| Mario8IdleState.Update | src/Mario-8/src/states/entity/player/PlayerIdleState.js:26-40 | the object reaches `IdleTick`; the player dies iff the walls did not throw and a live entity touches it |
| Mario8JumpingState.AfterAbove | src/Mario-8/src/states/entity/player/PlayerJumpingState.js:27-50 | the player keeps Jumping iff it still rises and did not bump its head; a bump zeroes the rise before gravity; charges untouched; the speed limit is kept |
| Mario8JumpingState.Finish | src/Mario-8/src/states/entity/player/PlayerJumpingState.js:48-49 | entity collisions, then gravity |
| Mario8JumpingState.Steer | src/Mario-8/src/states/entity/player/PlayerJumpingState.js:36-49 | air steering, then `Finish` only if steering did not throw |
| Mario8JumpingState.Bump | src/Mario-8/src/states/entity/player/PlayerJumpingState.js:32-35 | a head bump: no rise, Falling, then `Finish` |
| Mario8JumpingState.BumpOrSteer | src/Mario-8/src/states/entity/player/PlayerJumpingState.js:32-50 | the object reaches `AfterAbove` for the head test it computes |
| Mario8JumpingState.Update | src/Mario-8/src/states/entity/player/PlayerJumpingState.js:27-50 | the object reaches `JumpTick`; the player dies iff the update did not throw and a live entity touches it |
| Mario8Level.Level.constructor | src/Mario-8/src/objects/Level.js:5-8 | the level holds the given tile map and entity list |
| Mario8Level.Level.Clear | src/Mario-8/src/objects/Level.js:30-32 | exactly the entities not marked for clean-up stay, in order |
| Mario8Level.Level.AddEntity | src/Mario-8/src/objects/Level.js:37-39 | the entity goes at the end of the list |
| Mario8Level.Level.Update | src/Mario-8/src/objects/Level.js:10-20 | the clean-up pass runs first, then each remaining entity is updated exactly once, in order; an entity marked during the update stays until the next one |
| Mario8SnailDyingState.Particle.constructor | src/Mario-8/src/states/entity/snail/SnailDyingState.js:22-28 | a new particle is alive with the given position, colour, size and lifespan |
| Mario8SnailDyingState.Particle.Update | src/Mario-8/src/states/entity/snail/SnailDyingState.js:33-35 | the particle's own update decides whether it is still alive |
| Mario8SnailDyingState.Living | src/Mario-8/src/states/entity/snail/SnailDyingState.js:37 | exactly the live particles, in order |
| Mario8SnailDyingState.LivingIsFilter | src/Mario-8/src/states/entity/snail/SnailDyingState.js:33-37 | once every particle has been updated, the live-particle filter keeps exactly the survivors |
| Mario8SnailDyingState.Centre | src/Mario-8/src/states/entity/snail/SnailDyingState.js:23-24 | the burst point is half the snail's size from its corner |
| Mario8SnailDyingState.SnailDyingState.constructor | src/Mario-8/src/states/entity/snail/SnailDyingState.js:13-18 | no particles yet |
| Mario8SnailDyingState.SnailDyingState.Enter | src/Mario-8/src/states/entity/snail/SnailDyingState.js:20-30 | twenty new live particles appended at the snail's centre, colour (255, 50, 150), size 2, lifespan 100 |
| Mario8SnailDyingState.SnailDyingState.Update | src/Mario-8/src/states/entity/snail/SnailDyingState.js:32-42 | every particle is updated; the survivors stay in order; the snail is marked for clean-up once none is left, and never unmarked |

## Left out

- Rendering, sprites and pixel drawing are left out. This covers every `render`, `Player.generateSprites` and the Mario-4 `LevelMaker.generateSprites`. `generateSprites` of the Mario-7 level maker is kept as sheet cells; the `Sprite` objects are not.
- The `Timer` class is not part of this model. An animation update takes how many times the timer fired its task, and the Mario-8 level's `timer.update(dt)` is left out.
- `Entity.js`, `Particle.js` and `StateMachine.js` are not part of this model:
  - an entity's own update is reduced to whether it sets its clean-up mark;
  - a particle's update is reduced to whether it survives;
  - `didCollideWithEntity` is reduced to the `overlapping` set;
  - the state machine is reduced to the `state` field and `ChangeState`.
- The Mario-5 Jumping and Falling states, the Mario-8 Walking and Falling states and the Mario-6 player class are not part of this model:
  - Mario-6's falling state runs on the Mario-5 player class;
  - in Mario-5, `Mario5Update.Tick` only moves a Jumping or Falling player.
- Mario5Player.Player.ChangeState: sets the state field only and runs no `enter` hook. The `enter` of the Mario-5 Jumping state, which in the other builds sets the jump speed, is not part of this model, so an Idle or Walking player that switches to Jumping keeps its vertical speed here; `Mario5Update.Tick` leaving the vertical speed untouched rests on this.
- The Mario-7 Walking state takes its `Direction` enum from the Mario-8 build's `enums.js`, which is not part of this model; the two enums are assumed to be the same, so its footing probe uses the Mario-7 directions.
- The Mario-8 player inherits its tile probe from `Entity.js`. Its probe is assumed to be the Mario-7 one, read on the level's tile map.
- `Tile.SIZE` of the Mario-4 and Mario-5 builds is taken to be 16, the Mario-7 `TILE_SIZE`, so their ground top is row 14, at 224 pixels. `CANVAS_HEIGHT` is 288, from the Mario-0 globals.
- The canvas of the Mario-4 and Mario-5 players is reduced to its width, the only part they read.
- Floating point is left out: speeds and positions are exact reals, so IEEE rounding in `v * dt` and in the friction products is not modelled.
- The random draws (`didSucceedChance`, `getRandomPositiveInteger`) are inputs in their documented ranges.
- Mario7LevelMaker.GenerateLevel: needs at least 14 rows. With fewer, the JavaScript writes to rows that do not exist and throws, and the model does not follow that error path.
- Animation.Animation.constructor: needs a non-empty frame list. With none, `getCurrentFrame` would read `undefined`.
- The Mario-7 player's `currentAnimation.update(dt)` in `update` is left out. That player's animations only choose sprites, and the Animation class is modelled on its own and inside the Mario-4 player.
- Mario7Tick.Update: states the allowed transitions and the speed limit, not the full next state. The full next state of each branch is the contract of the state's own `Update`.
- Mario8IdleState.IdleTick: states only that the vertical position is kept. The transition properties are stated on `AfterWalls`, which it applies to the wall-check result.
- Collision.WallChecks: states the shape of the result, not each branch. The branch results are the contracts of `LeftCollisions` and `RightCollisions`, which it applies.
- Collision.AirSteer: gives the speed of each branch, but not the wall snap of a steering branch; that is the contract of `LeftCollisions` and `RightCollisions`, which it applies.
- Mario5Player.Player.constructor: starts in Idle. The Mario-5 constructor enters no state itself; its caller does, and the caller is not part of this model.
