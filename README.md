# Space Debris: a verified model of the game core

Space Debris is a small SFML arcade game written in C++. It grew in two
iterations, and both are modelled here:

- **Wall Bowling** (`main.cpp`). A paddle at the bottom of an 800 x 800 window
  moves left and right and fires a ball upward on every frame Space is held. The
  balls rise until they leave the top of the window and are then erased. A
  static 3 x 3 grid of bricks sits near the top.
- **Space Debris** (`entities.h`, `game.h`). Debris falls towards the world, a
  strip along the bottom of the window. The player fires bullets with a
  15-frame cooldown. A bullet that overlaps a piece of debris destroys both.
  Debris reaching the bottom of the window destroys the world, and that
  restarts the game. P pauses and resumes the game with debouncing. R
  restarts it. Escape quits.

Module layout:

| file | module | models |
|---|---|---|
| `geometry.dfy` | `Geometry` | a body's centre-based bounds and the closed-interval overlap test `isIntersecting` |
| `entities.dfy` | `Entities` | the entity update rules: the player (movement, cooldown and firing), the ball, the brick and the world |
| `compaction.dfy` | `Compaction` | the erase-remove idiom that drops destroyed objects, as a specification function and a two-index loop |
| `wall_bowling.dfy` | `WallBowling` | `main.cpp`: the paddle object, the brick grid and one pass of the main loop |
| `space_debris.dfy` | `SpaceDebris` | `game.h`: the entity store, the collision rules and their nested visits, pause debouncing, restart, and one pass of the main loop |

The game's state is modelled in two forms:
- The objects that own the game state are classes with methods: Wall Bowling's paddle (`Player::update`) and both main loops' state (`Game::restartGame`, one pass of `Game::runGameLoop`). The `for`/`forEach` passes and the erase-remove idiom are loops over sequences inside those methods.
- The updates of a single game object are functions that return the object's new value, which the vector or the entity store then holds. This covers `Player::update` in entities.h, `Ball::update`, `Brick::update` and the three collision rules. See "## Left out".

Each of the loop methods is proved equal to a specification function: `UpdatedBalls`, `UpdatedAll`, `Shots`, `Collided`, `Survivors`, `GridBrick` (brick by brick), `Fresh` or `Advance`. The two inner collision visits, `StrikeDebris` and `SweepDebris`, are each proved equal to a closed form that marks every object whose flag the visit sets, through `MarkIf`. The lemmas then prove the game's properties about those functions. Calls the model cannot see are handled as follows:
- The keyboard poll of each frame is a `Keys` parameter.
- Drawing, the window and console logging are left out.

Points where the behaviour of the code is easy to misread:

- `restartGame` (game.h:24) compares `_state` with `InProgress` instead of
  assigning it. A restart therefore keeps the current state, and a game
  restarted while paused stays paused. `SpaceDebris.Game.RestartGame` states
  exactly this.
- Hit points, mass levels, a game-over state and timed debris spawning are
  not part of this code, so none is modelled.
- Debris is destroyed, and the world with it, when the debris's bottom edge
  reaches the bottom of the window (y = 800). The world's position plays no
  part (game.h:135-140).
- The whole collision pass runs inside the visit of the worlds
  (game.h:81-92). A store without a world resolves no collision at all.
- Bullets created in a frame are already in the store when that frame's
  collision pass runs.
- game.h:28 gives the player `windowHeight` as its track width. Both window
  sizes are 800, so this changes nothing.
- Coordinates are integers. Every size the game uses is an even whole number,
  every speed is whole and every starting point is whole, so the `float`
  arithmetic of the source is exact on these values.

## Model

| member | source | states |
|---|---|---|
| Geometry.Shape.Left | entities.h:14 | a rectangle's left edge is x minus half the width, a circle's x minus the radius; it never lies right of the centre |
| Geometry.Shape.Right | entities.h:28 | the right edge is x plus the half-extent; it never lies left of the centre |
| Geometry.Shape.Top | main.cpp:20 | the top edge (the smaller y, since y grows downward) is y minus the half-extent and never below the centre |
| Geometry.Shape.Bottom | main.cpp:106 | the bottom edge is y plus the half-extent and never above the centre |
| Geometry.Shape.Moved | entities.h:56 | `move` translates the centre and all four edges by the offset and keeps the shape's kind and size |
| Geometry.BoundsAroundCentre | entities.h:8-33 | the centre is the midpoint of both spans and each span is twice the half-extent, for rectangles and circles alike |
| Geometry.Intersecting | main.cpp:152-158 | the overlap test on closed intervals: two shapes fail it exactly when one lies strictly left of, right of, above or below the other; its reference meaning is stated by IntersectingIffCommonPoint |
| Geometry.IntersectingSymmetric | main.cpp:152-158 | the overlap test gives the same answer with its arguments swapped |
| Geometry.TouchingEdgesIntersect | game.h:119-125 | the intervals are closed: shapes that only share an edge count as intersecting |
| Geometry.IntersectingIffCommonPoint | game.h:119-125 | two shapes intersect exactly when some point lies in both (both directions) |
| Entities.HorizontalVelocity | entities.h:70-76 | the velocity is -8 iff Left is held and the left edge is right of 0; it is +8 iff that fails and Right is held and the right edge is left of the track width; otherwise 0 |
| Entities.Player.Update | entities.h:54-86 | velocity from the keys, a horizontal-only move by it, and the three cooldown cases: a cooldown above 0 decrements and clears the shot; a cooldown of 0 with Space restarts at 15 and shoots; a cooldown of 0 without Space changes nothing |
| Entities.NewPlayer | entities.h:45-52 | a new player is a 20 x 20 body centred at (x, y), at rest, with the given track width and cooldown 0, not shooting; it satisfies the player invariant |
| Entities.PlayerValidPreserved | entities.h:78-85 | every update keeps the cooldown at most 15 and reports a shot only with the cooldown at 15 |
| Entities.FiresIffReady | entities.h:79-85 | a frame fires exactly when the cooldown is already 0 and Space is held |
| Entities.ShotLastsOneFrame | entities.h:79-81 | a shot is reported for one frame; the next update clears it whatever the keys |
| Entities.FiringCadence | entities.h:41 | holding Space from cooldown 0, frame n fires exactly when (n - 1) is a multiple of 16, and the cooldown then is 15 - (n - 1) mod 16 |
| Entities.PlayerStaysNearTrack | entities.h:70-76 | over any sequence of frames the paddle overshoots either side of the track by less than one step, and its y and track width never change |
| Entities.Ball.Update | entities.h:105-108 | the update keeps x and the circular shape, and never clears the destroyed flag |
| Entities.NewBall | entities.h:96-101 | a new ball is a live circle of radius 5 at the given point moving up at speed 10 |
| Entities.BallStep | entities.h:105-123 | a valid ball stays valid; a live ball rises by exactly 10; after the update it is destroyed iff it already was or its new top is less than 0 (above the window) |
| Entities.DestroyedBallIsParked | entities.h:118-122 | a destroyed ball has velocity 0 and no further update changes it |
| Entities.BallFlight | entities.h:96-123 | a ball fired from (x, y) is destroyed after n frames iff n >= 1 and y - 10n - 5 < 0; until then it sits at (x, y - 10n) |
| Entities.Brick.Update | entities.h:142-151 | debris moves down 2 per frame, keeps its x and its destroyed flag |
| Entities.NewBrick | entities.h:135-140 | a new brick is a live 80 x 30 rectangle centred on the given point |
| Entities.NewWorld | entities.h:160-165 | a new world is a live 800 x 30 rectangle centred on the given point |
| Compaction.Survivors | main.cpp:224-226 | compaction never lengthens a container and leaves no destroyed element |
| Compaction.SurvivorsAppend | main.cpp:224-226 | compaction distributes over concatenation, so survivors keep their relative order |
| Compaction.SurvivorsOfLive | main.cpp:228-230 | a container with no destroyed element is left exactly as it is |
| Compaction.SurvivorsOfLivePrefix | main.cpp:224-226 | a prefix with no destroyed element stays in front unchanged, and only the rest is compacted |
| Compaction.SurvivorsIdempotent | main.cpp:224-226 | compacting twice equals compacting once |
| Compaction.SurvivorsKeepLive | main.cpp:224-226 | no element that is still alive is lost |
| Compaction.EraseRemove | main.cpp:224-226 | `remove_if` followed by `erase` yields exactly the survivors, in order |
| WallBowling.Player.constructor | main.cpp:36-41 | a new paddle is a 20 x 20 body at the given centre, at rest and not shooting |
| WallBowling.Player.ProcessPlayerInput | main.cpp:55-71 | the velocity follows the shared movement rule on an 800-wide track; shooting equals Space being held; the body does not move |
| WallBowling.Player.Update | main.cpp:43-46 | the paddle moves horizontally by the chosen velocity (-8, 0 or +8), and its shot flag is Space |
| WallBowling.SolveBallBrickCollision | main.cpp:160-165 | a brick ends destroyed iff it already was or it overlaps the ball; its body is unchanged |
| WallBowling.SetupBricks | main.cpp:172-180 | the grid holds exactly nine bricks, brick k at column k / 3 and row k mod 3 |
| WallBowling.GridBricksApart | main.cpp:173-179 | no two bricks of the initial grid intersect |
| WallBowling.UpdateBalls | main.cpp:203-206 | the update loop gives every ball exactly one update, in place and in order |
| WallBowling.UpdatedBallsValid | main.cpp:203-206 | the ball invariant holds for every ball after the update pass |
| WallBowling.Game.constructor | main.cpp:170-182 | set-up puts the paddle at (400, 750), the nine grid bricks in order, and no balls |
| WallBowling.Game.Step | main.cpp:188-233 | Escape leaves everything unchanged and ends the loop. Otherwise the paddle moves; the balls become the survivors of the updated balls plus, when Space is held, one new ball at the paddle's new centre; the bricks become their own survivors |
| SpaceDebris.SolveBulletJunkCollision | game.h:127-133 | debris and a bullet that overlap are both marked destroyed; nothing else about them changes |
| SpaceDebris.SolveJunkHittingWorld | game.h:135-140 | debris whose bottom reaches y = 800 is marked destroyed together with the world; nothing else changes |
| SpaceDebris.StrikeDebris | game.h:84-86 | the bullet visit for one piece of debris destroys exactly the bullets overlapping it, and the debris iff any does |
| SpaceDebris.SweepDebris | game.h:82-87 | the debris visit for one world destroys: the world iff some debris reaches the ground; the debris that reaches the ground or is hit; the bullets that hit debris |
| SpaceDebris.ResolveCollisions | game.h:81-92 | the nested world, debris and bullet visits give the order-independent closed form `Collided`, and request a restart iff some world ends destroyed |
| SpaceDebris.HitDestroysBoth | game.h:127-133 | with a world present, an overlapping debris-bullet pair is destroyed by the pass |
| SpaceDebris.UpdateEntity | entities.h:169-170 | an update keeps each entity's kind, never revives it, destroys only bullets, and leaves a world unchanged |
| SpaceDebris.UpdateEntities | game.h:73 | every entity gets exactly one update, in creation order |
| SpaceDebris.SpawnBullets | game.h:75-79 | the player visit appends, in order, one bullet at each shooting player's centre |
| SpaceDebris.NoPlayerNoShots | game.h:75-79 | entities other than players create no bullets |
| SpaceDebris.ShotsOfSinglePlayer | game.h:75-79 | with the single player first, one bullet is created iff the player is shooting, at the player's centre |
| SpaceDebris.FreshWellFormed | game.h:26-37 | a restart gives 11 entities: the player, the world, then the nine debris of the grid; none is destroyed |
| SpaceDebris.CompactedWellFormed | game.h:94 | clearing destroyed entities keeps a live player and world in front, followed only by debris and bullets |
| SpaceDebris.AdvanceKeepsWellFormed | game.h:72-99 | a frame in progress keeps the store well formed: the player first, the world second, and no destroyed entity left over |
| SpaceDebris.RestartIffDebrisLands | game.h:81-98 | in a well-formed store a frame restarts exactly when some debris has reached the bottom of the window |
| SpaceDebris.PauseStep | game.h:49-62 | the flag records whether P is down now; the state flips iff P is down and was up in the previous frame |
| SpaceDebris.HoldingPauseTogglesOnce | game.h:50-62 | holding P for any k >= 1 frames toggles the state exactly once |
| SpaceDebris.Game.constructor | game.h:106-110 | the game starts in progress, with P not held and an empty store |
| SpaceDebris.Game.RestartGame | game.h:21-38 | the store becomes the fresh layout; the state and the pause flag are left unchanged |
| SpaceDebris.Game.Step | game.h:40-104 | Escape changes nothing. Otherwise the state and flag follow `PauseStep`; R first resets the store; while paused the store is untouched; while in progress the store becomes `Advance` (update, spawn, collide, compact, restart on a destroyed world); a well-formed store stays well formed |

## Left out

- Rendering: the SFML window, `draw`, `display`, `clear`, colours (entities.cpp) and the 60 fps frame limit have no effect on the game state.
- Keyboard polling: `sf::Keyboard::isKeyPressed` is replaced by a `Keys` value for the frame. The model assumes each key reads the same wherever it is polled within one frame.
- Console output (`std::cout`) is left out.
- The unbounded `while (true)` loops are modelled as a single `Step`. `Escape` returns true where the source breaks out of the loop.
- `squareRoot` (entities.h:177-184) is not used by any modelled operation, and its NaN check concerns floating point.
- Floating point: coordinates are integers. This is exact for the game's whole sizes, speeds and start points, but positions the game never reaches are not analysed for rounding.
- `EntityManager` (`create`, `forEach`, `updateEntities`, `clearDestroyed`, `clearAll`) and the `Debris` and `Bullet` classes are defined in headers this model does not cover. The store is a sequence in creation order, and the model assumes:
  - `forEach<T>` visits the entities of type `T` in that order, including entities already flagged this frame and entities created this frame;
  - `clearDestroyed` erase-removes destroyed entities;
  - `Debris` behaves as `Brick` and `Bullet` as `Ball`.
- `Game()` does not call `restartGame`, so the modelled store starts empty. The caller that starts the loop is not part of this model.
- main.cpp's `Brick::update` is empty, and its `Brick::defaultVelocity` (10) and `_velocity` are never used. Wall Bowling's bricks therefore never move, and `WallBowling.Game.Step` does not update them.
- `WallBowling.SolveBallBrickCollision` is modelled, but the main loop does not call it: its calls are commented out (main.cpp:200, 205).
- Entities.Player.Update, Entities.Ball.Update, Entities.Brick.Update, SpaceDebris.SolveBulletJunkCollision, SpaceDebris.SolveJunkHittingWorld and WallBowling.SolveBallBrickCollision are each an in-place update of one or two objects in the source: member functions, or functions taking references. They are modelled as functions returning the new values, which the store or the vector then holds. The model does not capture the in-place writes or aliasing through those references. Every call site passes distinct objects held by value in one container, so no aliasing can arise there.
- Entities.Ball.Update: its own contract states only what holds for every ball. The exact step (rise by 10, destroyed iff the top leaves the window, velocity zeroed) is stated by `BallStep` for balls that satisfy the ball invariant, which are all the balls the game creates.
- The players' `unsigned` fields (`_coolDown`, `_trackWidth`) never wrap: the cooldown is decremented only when positive, and the track width is 800.
