# Space Invaders core, modelled in Dafny

This project models the game core of a browser Space Invaders clone written
in TypeScript. It covers the following parts:

- the game objects and their box overlap tests;
- the object pools that recycle aliens, bullets and bombs;
- the alien formation and its march;
- the bomb system that picks droppers and drops bombs;
- the UFO and its system;
- the scoring system with its combo and its high score;
- the explosion particles;
- the destructible buildings and the row that holds them;
- the spatial-grid collision system, and the collision effects the game applies;
- the player's cannon and the life manager;
- the level table;
- the game state machine (menu, play, pause, level-complete, game-over,
  victory);
- the game object that drives one frame.

Each source file is one module, with the same name in Dafny style:

| module | file |
|---|---|
| `GameObjects` | `game_object.dfy` |
| `Aliens` | `alien.dfy` |
| `AlienGrids` | `alien_grid.dfy` |
| `Bombs`, `BombSystems` | `bomb.dfy`, `bomb_system.dfy` |
| `ObjectPools`, `BasePools` | `object_pool.dfy`, `base_pool.dfy` |
| `AlienPools`, `BombPools`, `BulletPools` | the pool files |
| `Ufos`, `UfoSystems` | `ufo.dfy`, `ufo_system.dfy` |
| `Scoring` | `scoring_system.dfy` |
| `Explosions` | `explosion_system.dfy` |
| `Buildings`, `BuildingManagers` | `building.dfy`, `building_manager.dfy` |
| `Collisions` | `collision_system.dfy` |
| `CollisionEffects` | `collision_effects.dfy` |
| `Players`, `PlayerLives` | `player.dfy`, `player_life_manager.dfy` |
| `Levels` | `level_manager.dfy` |
| `Games` | `game.dfy`: `Game` and `GameStateManager` |

`GameConstants`, `GameTypes`, `RandomSource` and `SeqUtil` hold shared
constants, types, the random stream and sequence lemmas.

Objects that the game updates in place are classes, with `modifies` frames
and `Valid()` invariants:

- the game objects, the pools and the systems;
- the cannon;
- the game and its state manager.

The decisions the game takes are specified by pure functions, and lemmas
prove their properties. Examples of such decisions:

- which contacts a collision pass finds;
- which aliens drop bombs;
- how damage wears a building down;
- which transitions the state machine accepts.

How the model represents the source's runtime:

- **Random draws.** `Math.random()` is a caller-supplied stream of draws in
  [0, 1) (`RandomSource.Stream`). Each draw the source makes takes the next
  element of the stream, in the same order.
- **Clock.** `Date.now()` is an integer parameter `now`.
- **Timers.** The `setTimeout` callbacks are separate methods that the
  caller invokes when the timer fires.
- **Numbers.** Positions and durations are `real`. Scores, counts and levels
  are `int`.

## Model

| member | source | states |
|---|---|---|
| GameObjects.TouchingSymmetric | src/core/GameObject.ts:50-60 | the edge-inclusive overlap test gives the same answer with its arguments swapped |
| GameObjects.OverlappingSymmetric | src/core/CollisionSystem.ts:57-64 | the strict overlap test gives the same answer with its arguments swapped |
| GameObjects.OverlappingImpliesTouching | src/core/GameObject.ts:50-60 | strict overlap implies edge-inclusive overlap, and the two differ only when some pair of edges coincide |
| GameObjects.SideBySideTouchOnly | src/core/GameObject.ts:50-60 | two boxes side by side that share an edge touch but do not strictly overlap |
| GameObjects.GameObject.constructor | src/core/GameObject.ts:15-26 | a new object is active, has the given position, size and kind, zero velocity, the background layer and a white colour |
| GameObjects.GameObject.SetPosition | src/core/GameObject.ts:40-43 | only the position changes, to the given one |
| GameObjects.GameObject.SetVelocity | src/core/GameObject.ts:45-48 | only the velocity changes, to the given one |
| GameObjects.GameObject.SetColor | src/core/GameObject.ts:62-64 | only the colour changes |
| GameObjects.GameObject.Destroy | src/core/GameObject.ts:66-68 | the object is inactive afterwards, whatever it was before |
| GameObjects.IsCollidingSymmetric | src/core/GameObject.ts:50-60 | the object-level collision test is symmetric |
| Aliens.Alien.constructor | src/entities/Alien.ts:9-14 | a new alien is an active alien-kind object of the alien size and colour at the given position, remembers its row and column, and faces right |
| Aliens.Alien.SetDirection | src/entities/Alien.ts:47-49 | only the direction changes |
| Aliens.Alien.SetPosition | src/entities/Alien.ts:63-66 | only the position changes |
| Aliens.Alien.MoveLeft | src/entities/Alien.ts:68-70 | x decreases by the speed and nothing else changes |
| Aliens.Alien.MoveRight | src/entities/Alien.ts:72-74 | x increases by the speed and nothing else changes |
| Aliens.Alien.MoveDown | src/entities/Alien.ts:76-78 | y increases by the distance and nothing else changes |
| Aliens.Alien.Destroy | src/entities/Alien.ts:80-82 | the alien is inactive afterwards |
| Bombs.Bomb.constructor | src/entities/Bomb.ts:5-9 | a new bomb is an active 4 by 8 bomb-kind object on the projectile layer in the bomb colour |
| Bombs.Bomb.Update | src/entities/Bomb.ts:11-19 | the bomb falls by the bomb speed and is active afterwards exactly when it was active and is not more than 20 below the canvas |
| Bombs.Bomb.Destroy | src/entities/Bomb.ts:45-49 | the bomb is inactive afterwards |
| Bullets.Bullet.constructor | src/entities/Bullet.ts:5-8 | a new bullet is an active 4 by 12 bullet-kind object in the bullet colour |
| Bullets.Bullet.Update | src/entities/Bullet.ts:10-18 | the bullet rises by the bullet speed and is active afterwards exactly when it was active and has not passed 20 above the top |
| Bullets.Bullet.Destroy | src/entities/Bullet.ts:26-30 | the bullet is inactive afterwards |
| ObjectPools.ObjectPool.constructor | src/pools/ObjectPool.ts:6-15 | the free list holds the pre-warmed objects in creation order and nothing is in use; the pool is consistent, so a pool pre-warmed within its capacity starts within it |
| ObjectPools.ObjectPool.Acquire | src/pools/ObjectPool.ts:17-31 | with free objects it hands out the last freed one; with none it hands out a new object only while fewer than the maximum are in use, and otherwise nothing; anything handed out is appended to the in-use list; no object is ever on both lists and free plus in use stays within the maximum |
| ObjectPools.ObjectPool.Release | src/pools/ObjectPool.ts:33-40 | an in-use object leaves the in-use list at its index and goes to the end of the free list; any other object changes nothing, so a second release is a no-op; the total and the capacity bound are kept |
| ObjectPools.ObjectPool.Clear | src/pools/ObjectPool.ts:54-61 | every in-use object is appended to the free list in order and the in-use list is empty; the total is kept |
| BasePools.Fill | src/pools/BasePool.ts:60-63 | pushing a sequence of released objects onto a free list capped at the maximum keeps the existing free list as a prefix and never grows it past the cap |
| BasePools.FillStep | src/pools/BasePool.ts:60-63 | one more release pushes the object exactly when the free list is below the cap |
| BasePools.ClearStays | src/pools/BasePool.ts:102-107 | the entries clear's for-of loop leaves in use, one mark per entry |
| BasePools.ClearReleasesOnlyLive | src/pools/BasePool.ts:102-107 | clear releases only entries that were active: every inactive entry stays in use |
| BasePools.ClearAllLive | src/pools/BasePool.ts:102-107 | with every entry active, clear releases exactly the entries at even positions and skips every odd one |
| BasePools.ClearSkipsSecond | src/pools/BasePool.ts:102-107 | with two active objects in use, clear releases the first and leaves the second in use |
| BasePools.FirstInactive | src/pools/BasePool.ts:28 | the index of the first inactive object, or -1 exactly when all are active |
| BasePools.BasePool.constructor | src/pools/BasePool.ts:9-21 | the free list holds `maxSize` new inactive objects (none when the maximum is negative) and nothing is in use |
| BasePools.BasePool.Acquire | src/pools/BasePool.ts:23-43 | with free objects the last is popped, activated and appended to the in-use list; with none, the first inactive in-use object is reactivated and removed from the in-use list, so it is listed nowhere; with neither the result is none; no other object's flag changes |
| BasePools.BasePool.Release | src/pools/BasePool.ts:45-64 | an inactive object changes nothing; an active one is deactivated, removed from the in-use list if it is there, and pushed onto the free list only while the free list is below the maximum |
| BasePools.BasePool.Update | src/pools/BasePool.ts:66-83 | the backward sweep leaves in use exactly the entries that are not active and off the 800 by 600 screen, in order; the released ones are pushed, last first, while the free list is below the maximum; inactive in-use objects are never released |
| BasePools.BasePool.Clear | src/pools/BasePool.ts:102-107 | the in-use list afterwards is what clear's skipping walk leaves, the released entries are pushed in order up to the cap, and an object is active afterwards exactly when it was active and is still in use |
| BasePools.BasePool.GetPoolSize | src/pools/BasePool.ts:98-100 | the free-list length, never above the maximum |
| BombPools.BombPool.constructor | src/pools/BombPool.ts:6-8 | five bombs at the origin are pre-warmed on the free list and none is in use |
| BombPools.BombPool.CreateBomb | src/pools/BombPool.ts:10-18 | a bomb is handed out exactly when a free bomb exists or fewer than the maximum are in use; it is the last free bomb (or a new one), it is appended to the in-use list, placed at the given point, active and in the bomb colour; otherwise nothing changes; no other bomb changes |
| BombPools.BombPool.ResetObject | src/pools/BombPool.ts:37-40 | the bomb is inactive and back at the origin |
| BombPools.BombPool.Release | src/pools/BombPool.ts:37-40 | an in-use bomb leaves the in-use list, is reset and goes to the end of the free list; any other bomb changes nothing |
| BombPools.BombPool.Update | src/pools/BombPool.ts:20-31 | the backward sweep moves every in-use bomb down by the bomb speed; the ones inactive or more than 20 below the canvas afterwards are released (pushed last first), the rest stay in use in order |
| BombPools.BombPool.Reset | src/pools/BombPool.ts:42-47 | every in-use bomb is reset and pushed onto the free list from the last to the first; the in-use list is empty and the free bombs do not change |
| BombPools.BombPool.ActiveBounded | src/pools/ObjectPool.ts:17-31 | a consistent bomb pool never has more than the maximum number of bombs in use |
| BulletPools.BulletPool.constructor | src/pools/BulletPool.ts:6-8 | five bullets at the origin are pre-warmed on the free list and none is in use |
| BulletPools.BulletPool.CreateBullet | src/pools/BulletPool.ts:10-18 | a bullet is handed out exactly when a free bullet exists or fewer than the maximum are in use; it is the last free bullet (or a new one), appended to the in-use list, placed at the given point, active and in the bullet colour; otherwise nothing changes; no other bullet changes |
| BulletPools.BulletPool.ResetObject | src/pools/BulletPool.ts:37-40 | the bullet is inactive and back at the origin |
| BulletPools.BulletPool.Release | src/pools/BulletPool.ts:37-40 | an in-use bullet leaves the in-use list, is reset and goes to the end of the free list; any other bullet changes nothing |
| BulletPools.BulletPool.Update | src/pools/BulletPool.ts:20-31 | the backward sweep moves every in-use bullet up by the bullet speed; the ones inactive or more than 20 above the top afterwards are released (pushed last first), the rest stay in use in order |
| BulletPools.BulletPool.Reset | src/pools/BulletPool.ts:42-47 | every in-use bullet is reset and pushed onto the free list from the last to the first; the in-use list is empty and the free bullets do not change |
| BulletPools.BulletPool.ActiveBounded | src/pools/ObjectPool.ts:17-31 | a consistent bullet pool never has more than the maximum number of bullets in use |
| AlienPools.GridSlotAt | src/pools/AlienPool.ts:31-38 | the slot visited for row `row` and column `col` is at index row × columns + col and sits at the start point plus col spacings across and row spacings down |
| AlienPools.GridSizeStep | src/pools/AlienPool.ts:31-32 | each further row adds one row of columns to the number of visited cells |
| AlienPools.AlienPool.constructor | src/pools/AlienPool.ts:6-12 | rows × columns new active aliens at the origin, facing right, are pre-warmed on the free list and none is in use |
| AlienPools.AlienPool.Acquire | src/pools/ObjectPool.ts:17-31 | the pool's acquire rule for aliens: the last free alien, else a new active alien at the origin while fewer than the maximum are in use, else none |
| AlienPools.AlienPool.CreateAlienGrid | src/pools/AlienPool.ts:28-45 | the result holds as many aliens as cells visited, capped by the room left under the maximum; they are appended to the in-use list, and alien k sits at the k-th cell of the row-major walk; the recycled ones come from the free list last first and keep their liveness and direction, and new ones are active and face right |
| AlienPools.AlienPool.ResetObject | src/pools/AlienPool.ts:18-22 | the alien is back at the origin, faces right and is inactive |
| AlienPools.AlienPool.RemoveAlien | src/pools/AlienPool.ts:51-53 | an in-use alien leaves the in-use list, is reset and goes to the end of the free list; any other alien changes nothing |
| AlienPools.AlienPool.Clear | src/pools/ObjectPool.ts:54-61 | every in-use alien is reset and appended to the free list in order, the in-use list is empty, and the free aliens do not change |
| AlienGrids.Displacement | src/systems/AlienGrid.ts:44-110 | at an edge the formation steps down by one row spacing; otherwise it slides by ten times the base speed, rightwards exactly when the direction is 1 |
| AlienGrids.DownOrSideways | src/systems/AlienGrid.ts:44-63 | every formation step moves along exactly one axis and is never zero |
| AlienGrids.FlattenIndex | src/systems/AlienGrid.ts:112-118 | in the flattened list, row r, column c sits at index r × n + c |
| AlienGrids.CountActiveZero | src/systems/AlienGrid.ts:128-130 | the active count is zero exactly when no alien is active |
| AlienGrids.AlienGrid.constructor | src/systems/AlienGrid.ts:13-17 | a full 6 by 8 formation of new active aliens, each at its starting place for its row and column; direction right, last move at time 0, interval 1000, no edge reached |
| AlienGrids.AlienGrid.InitializeGrid | src/systems/AlienGrid.ts:23-34 | every slot holds a new active alien remembering its row and column, at the start point plus its column spacings across and row spacings down |
| AlienGrids.AlienGrid.BuildRow | src/systems/AlienGrid.ts:26-32 | one row of eight new aliens, each placed for its row and column |
| AlienGrids.AlienGrid.Update | src/systems/AlienGrid.ts:36-42 | once the interval has elapsed since the last move, the formation makes one step (down and reverse at an edge, else sideways) and the last move time becomes now; before that nothing moves and nothing changes |
| AlienGrids.AlienGrid.MoveAliens | src/systems/AlienGrid.ts:44-63 | the edge flag is the edge test's answer; at an edge every active alien moves down a row spacing and the direction reverses, otherwise every active alien slides one step in the direction; inactive aliens stay put |
| AlienGrids.AlienGrid.CheckEdgeCollision | src/systems/AlienGrid.ts:65-83 | true exactly when some active alien is within 20 of the edge the formation is heading for (right edge going right, left edge going left) |
| AlienGrids.AlienGrid.MoveAllAliensHorizontally | src/systems/AlienGrid.ts:85-99 | every active alien slides one step in the current direction and the inactive ones stay put |
| AlienGrids.AlienGrid.MoveAllAliensDown | src/systems/AlienGrid.ts:101-110 | every active alien moves down one row spacing and the inactive ones stay put |
| AlienGrids.AlienGrid.SideStep | src/systems/AlienGrid.ts:89-96 | an active alien slides one step in the direction; an inactive one does not move |
| AlienGrids.AlienGrid.GetAliens | src/systems/AlienGrid.ts:112-118 | the rows concatenated in order |
| AlienGrids.AlienGrid.Reset | src/systems/AlienGrid.ts:120-126 | a new starting formation, direction right, last move at time 0, interval 1000, no edge reached |
| AlienGrids.AlienGrid.GetActiveAlienCount | src/systems/AlienGrid.ts:128-130 | the number of active aliens in the flattened list, zero exactly when the formation is cleared |
| AlienGrids.AlienGrid.ClearedCount | src/systems/AlienGrid.ts:128-130 | the active count is zero exactly when every slot's alien is inactive |
| AlienGrids.AlienGrid.SetMovementDirection | src/systems/AlienGrid.ts:132-134 | only the direction changes |
| AlienGrids.AlienGrid.SetMoveInterval | src/systems/AlienGrid.ts:140-142 | only the interval changes |
| BombSystems.Cooldown | src/systems/BombSystem.ts:132-135 | a cooldown drawn from a number in [0, 1) lies in [2000, 5000) |
| BombSystems.Pick | src/systems/BombSystem.ts:81-82 | the floored index chosen by a draw is a valid index of the available aliens |
| BombSystems.MaxBombsFor | src/systems/BombSystem.ts:154 | at most 4 bombs in flight: 3 below level 5, 4 from level 5 on, fewer than 3 for negative levels |
| BombSystems.CheckIntervalFor | src/systems/BombSystem.ts:155 | the check interval is 2000 − 100 × level, never below 1000, and exactly 1000 from level 10 on |
| BombSystems.MaxBombsMonotone | src/systems/BombSystem.ts:154 | a higher level never allows fewer bombs in flight |
| BombSystems.CheckIntervalMonotone | src/systems/BombSystem.ts:155 | a higher level never checks less often |
| BombSystems.ActiveAliensMembers | src/systems/BombSystem.ts:36 | the filtered list holds exactly the active aliens of the input |
| BombSystems.LiveDroppersMembers | src/systems/BombSystem.ts:72 | the pruned list holds exactly the droppers whose alien is active |
| BombSystems.LiveDroppersIds | src/systems/BombSystem.ts:72 | pruning keeps droppers' aliens distinct |
| BombSystems.WithoutMembers | src/systems/BombSystem.ts:76-78 | the available aliens are exactly the active ones that are not already droppers |
| BombSystems.PlanOrdered | src/systems/BombSystem.ts:100-122 | the droppers that fire in one pass are visited in increasing order |
| BombSystems.PlanPrefix | src/systems/BombSystem.ts:100-122 | the droppers that fire among the first k are the start of those that fire among all |
| BombSystems.PlanMeaning | src/systems/BombSystem.ts:100-122 | dropper k fires exactly when its alien is active, its cooldown has elapsed, and fewer than the room left have fired before it |
| BombSystems.RearmMeaning | src/systems/BombSystem.ts:105-110 | a dropper that fires gets the pass time as its last bomb time and a new cooldown from the draw after those of the earlier firings; the others are unchanged |
| BombSystems.NothingFits | src/systems/BombSystem.ts:96-98 | with no room left no dropper is rearmed |
| BombSystems.InitialDroppersChosen | src/systems/BombSystem.ts:36-40 | a shuffle of the active aliens holds only active aliens and no alien twice |
| BombSystems.BombSystem.constructor | src/systems/BombSystem.ts:12-24 | an empty bomb pool in use, no droppers, at most 4 bombs, last check at 0 and interval 2000 |
| BombSystems.BombSystem.RandomBombCooldown | src/systems/BombSystem.ts:132-135 | one draw is consumed and turned into the cooldown |
| BombSystems.BombSystem.InitializeBombDroppers | src/systems/BombSystem.ts:34-50 | the droppers are the first min(5, active aliens) of the shuffle, in order, each with the current time as its last bomb time and its own successive cooldown draw |
| BombSystems.BombSystem.Update | src/systems/BombSystem.ts:52-65 | a frame is three steps in order. First the pool's sweep leaves in flight the bombs that survive it (`swept`). Then, once the check interval has elapsed, the droppers become `Refreshed` of the live droppers and the free active aliens, counted against `swept`, and the check time becomes now; otherwise droppers, check time and stream are kept (`mid`, `rngMid`). Last, the pass over `mid`, with the room `swept` leaves under the cap and the aliens' sights: the droppers become `Rearm` of `mid`, the bombs in flight are `swept` followed by one bomb per planned dropper at its alien's sight, and one draw is spent per bomb. A frame never leaves more bombs in flight than it started with unless the number is within the cap |
| BombSystems.BombSystem.Refresh | src/systems/BombSystem.ts:56-61 | once the interval has elapsed the check time becomes now and the droppers and the stream become those of the dropper refresh: the live droppers, plus one recruit from three draws when fewer than 5 remain, the cap is not reached and an active alien is free (stated both case by case and as `Refreshed`); otherwise droppers, check time and stream are kept |
| BombSystems.BombSystem.Sweep | src/systems/BombSystem.ts:53-54 | the bombs in flight become those that survive the pool's update, in order; the pool's footprint, the live droppers and the active aliens are untouched |
| BombSystems.BombSystem.UpdateBombDroppers | src/systems/BombSystem.ts:67-90 | the droppers whose alien is dead are dropped; then, with fewer than 5 droppers, room for bombs and some available alien, one dropper is added: the alien picked by the first draw, a last bomb time now plus up to 2000 from the second, a cooldown from the third; otherwise no draw is used; droppers' aliens stay distinct |
| BombSystems.BombSystem.TopUp | src/systems/BombSystem.ts:74-89 | the recruiting half of the dropper refresh, as above, on the pruned list |
| BombSystems.BombSystem.Prune | src/systems/BombSystem.ts:72 | the droppers are exactly those whose alien is active, in order |
| BombSystems.BombSystem.Recruit | src/systems/BombSystem.ts:81-87 | three draws make the new dropper: which alien, its delayed start and its cooldown |
| BombSystems.BombSystem.TryDropBombs | src/systems/BombSystem.ts:92-123 | the droppers become Rearm of the old ones and the bombs in use grow by one bomb per planned firing, at the firing alien's bottom centre, in order (see PlanMeaning, RearmMeaning); one draw is used per firing; with no room no bomb is added, and otherwise the number in flight ends at most at the cap |
| BombSystems.BombSystem.DropPass | src/systems/BombSystem.ts:100-122 | the loop over the droppers ends with the droppers rearmed and the bombs landed as the plan says |
| BombSystems.BombSystem.DropBomb | src/systems/BombSystem.ts:125-130 | a bomb is appended at the alien's bottom centre less half a bomb's width exactly when the pool has a spare bomb or fewer than its maximum in use; otherwise the bombs in use are unchanged; no other bomb changes |
| BombSystems.BombSystem.Reset | src/systems/BombSystem.ts:141-145 | every bomb in flight goes back to the pool's free list (last first), no droppers remain and the check time is 0 |
| BombSystems.BombSystem.ClearBombs | src/systems/BombSystem.ts:147-149 | every bomb in flight goes back to the pool's free list (last first) and nothing else changes |
| BombSystems.BombSystem.SetDifficulty | src/systems/BombSystem.ts:152-161 | the bomb cap and check interval follow the level as MaxBombsFor and CheckIntervalFor say, and every dropper gets a new cooldown from its own successive draw, nothing else of it changing |
| Ufos.PointValue | src/entities/UFO.ts:13 | a bonus ship is worth 400 points, an ordinary one 200 |
| Ufos.StartX | src/entities/UFO.ts:122-133 | a ship moving right starts one ship's width left of the screen, one moving left one ship's width right of it |
| Ufos.EntersInside | src/entities/UFO.ts:21-24 | a ship that has just appeared is off screen on its entry side and not yet past its exit |
| Ufos.ShiftTowardsExit | src/entities/UFO.ts:18 | for a positive frame time the ship moves in its direction of travel |
| Ufos.NoExitOnFirstFrame | src/entities/UFO.ts:122-133 | a ship that has just appeared is still in play after one frame of any length up to the frame cap |
| Ufos.Ufo.constructor | src/entities/UFO.ts:9-14 | a ship object at the given position with the ship's size, kind and colour, moving right, worth PointValue(isBonus) |
| Ufos.Ufo.Update | src/entities/UFO.ts:16-27 | the ship moves by direction × speed × frame time / 16.67 and goes out of play exactly when it is more than 50 pixels beyond its exit edge |
| Ufos.Ufo.SetDirection | src/entities/UFO.ts:106-108 | the direction becomes the given one |
| Ufos.Ufo.SpawnFromLeft | src/entities/UFO.ts:122-127 | the ship is placed left of the screen at the ship row, moving right, in play |
| Ufos.Ufo.SpawnFromRight | src/entities/UFO.ts:129-134 | the ship is placed right of the screen at the ship row, moving left, in play |
| Ufos.Ufo.Destroy | src/entities/UFO.ts:136-138 | the ship is out of play |
| UfoSystems.SpawnInterval | src/systems/UFOSystem.ts:96-104 | the time to the next ship lies in [30000, 90000) |
| UfoSystems.SpawnDirection | src/systems/UFOSystem.ts:46 | a ship enters from the left (moving right) exactly when the draw is below 0.5, else from the right |
| UfoSystems.SpawnIntervalMonotone | src/systems/UFOSystem.ts:101 | a larger draw never gives a shorter interval |
| UfoSystems.UfoSystem.constructor | src/systems/UFOSystem.ts:9-11 | no ship, game time 0 and the first spawn time drawn from the interval |
| UfoSystems.UfoSystem.GetBounds | src/systems/UFOSystem.ts:113-119 | a box is returned exactly when a ship is in play, and it is that ship's box |
| UfoSystems.UfoSystem.CalculateNextSpawnTime | src/systems/UFOSystem.ts:96-104 | the next spawn time is the game time plus an interval in [30000, 90000) |
| UfoSystems.UfoSystem.SpawnUFO | src/systems/UFOSystem.ts:38-55 | with a ship already in play nothing changes and no draw is used; otherwise a new ship of the given kind and value appears at the ship row on the side the first draw picks, not yet past its exit, and the second draw sets the next spawn time |
| UfoSystems.UfoSystem.SpawnBonusUFO | src/systems/UFOSystem.ts:57-59 | as SpawnUFO, with a bonus ship worth 400 |
| UfoSystems.UfoSystem.DestroyUFO | src/systems/UFOSystem.ts:61-74 | with a ship in play its value is returned, it goes out of play and the system holds none; otherwise 0 is returned and nothing changes |
| UfoSystems.UfoSystem.MoveUFO | src/systems/UFOSystem.ts:21-29 | a ship in play moves one frame, only its x and its in-play flag changing; the system drops it exactly when it has gone out of play |
| UfoSystems.UfoSystem.Update | src/systems/UFOSystem.ts:13-30 | game time advances by the frame; a ship is spawned (two draws, new spawn time) exactly when spawning is allowed, none is held and the spawn time has come; a ship in play, old or just spawned, then moves one frame and is dropped once past its exit; for a frame of at most 100 a just-spawned ship stays; of a ship already held only the x and the in-play flag change |
| UfoSystems.UfoSystem.Reset | src/systems/UFOSystem.ts:106-111 | no ship, game time 0 and a freshly drawn spawn time |
| Scoring.NextHalves | src/systems/ScoringSystem.ts:23-28 | the multiplier, counted in halves, resets to 1× exactly when a second or more has passed since the last hit, and otherwise rises by 0.5 up to 3× |
| Scoring.Award | src/systems/ScoringSystem.ts:30 | the award is the points times the multiplier, rounded down |
| Scoring.AwardBounds | src/systems/ScoringSystem.ts:25-30 | an award for non-negative points lies between the points and three times the points |
| Scoring.StreakMultiplier | src/systems/ScoringSystem.ts:23-28 | after k further quick hits from 1× the multiplier is 1 + k/2, capped at 3× |
| Scoring.RecentEvents | src/systems/ScoringSystem.ts:86-88 | the result is a suffix of the history: the last count events for a positive count, the whole history for 0 |
| Scoring.FormattedRoundTrip | src/systems/ScoringSystem.ts:110-116 | a formatted non-negative score has at least six digits and reads back as the score |
| Scoring.FormattedWidth | src/systems/ScoringSystem.ts:110-116 | a score below a million formats to exactly six characters |
| Scoring.PadStart | src/systems/ScoringSystem.ts:111 | zeros are put in front up to the width; the string itself is kept whole at the end |
| Scoring.DigitsValue | src/systems/ScoringSystem.ts:111 | the decimal digits of a number read back as that number |
| Scoring.ScoringSystem.constructor | src/systems/ScoringSystem.ts:9-18 | score 0, empty history, multiplier 1×, last hit at 0, and the saved high score |
| Scoring.ScoringSystem.AddScore | src/systems/ScoringSystem.ts:20-47 | the multiplier follows NextHalves from the time since the last hit; the score grows by the award; the event with the award, the reason tagged with the multiplier and the time is appended; the high score becomes the larger of itself and the new score |
| Scoring.ScoringSystem.AddAlienScore | src/systems/ScoringSystem.ts:49-51 | AddScore with 100 points and reason "alien": the multiplier follows NextHalves, the score rises by the award, the event with the award, the reason and the multiplier is appended to the history, and the high score follows the score |
| Scoring.ScoringSystem.AddUFOScore | src/systems/ScoringSystem.ts:53-57 | AddScore with 400 points and reason "bonus-ufo" for a bonus ship, 200 and "ufo" otherwise: the multiplier follows NextHalves, the score rises by the award, the event is appended to the history, and the high score follows the score |
| Scoring.ScoringSystem.AddLevelBonus | src/systems/ScoringSystem.ts:59-61 | AddScore with 1000 points and reason "level-complete": the multiplier follows NextHalves, the score rises by the award, the event is appended to the history, and the high score follows the score |
| Scoring.ScoringSystem.GetComboMultiplier | src/systems/ScoringSystem.ts:71-73 | the multiplier lies in [1, 3] and is a whole number of halves |
| Scoring.ScoringSystem.Reset | src/systems/ScoringSystem.ts:79-84 | score, multiplier, last hit and history go back to their start; the high score is kept |
| Scoring.ScoringSystem.SetScore | src/systems/ScoringSystem.ts:118-124 | the score becomes the given one and the high score the larger of the two |
| Explosions.Lifetime | src/systems/ExplosionSystem.ts:40 | a particle lives between 500 and 1500 ms |
| Explosions.Fresh | src/systems/ExplosionSystem.ts:36-53 | a new particle is shown, with its full lifetime left, between 500 and 1500 ms |
| Explosions.Decay | src/systems/ExplosionSystem.ts:59-83 | a hidden particle is left alone; a shown one loses the frame time and stays shown exactly while time is left; its maximum lifetime is kept |
| Explosions.DecayForLifetime | src/systems/ExplosionSystem.ts:78-82 | a particle still shown after n frames was shown at the start and has lost exactly n frame times |
| Explosions.ParticleDies | src/systems/ExplosionSystem.ts:78-82 | a particle is hidden once the frames have used up its lifetime |
| Explosions.DecayAll | src/systems/ExplosionSystem.ts:59-83 | every particle of the effect decays by the same frame time, in place |
| Explosions.ActiveCountZero | src/systems/ExplosionSystem.ts:184-188 | no particle is counted exactly when none is shown |
| Explosions.DecayCount | src/systems/ExplosionSystem.ts:59-83 | a frame never shows more particles than before |
| Explosions.ParticleCount | src/systems/ExplosionSystem.ts:131 | small, medium and large explosions have 10, 20 and 40 particles |
| Explosions.ExplosionEffect.constructor | src/systems/ExplosionSystem.ts:21-54 | an effect at the given point, in play, with the given number of new particles, particle i made from the draws after those of particles before it |
| Explosions.ExplosionEffect.Update | src/systems/ExplosionSystem.ts:56-88 | all particles decay by the frame time; the effect leaves play exactly when no particle was shown at the start of the frame |
| Explosions.LiveMarks | src/systems/ExplosionSystem.ts:164 | an effect is kept after a frame exactly when one of its particles was shown before it |
| Explosions.TotalParticles | src/systems/ExplosionSystem.ts:184-188 | the total of shown particles is zero exactly when no effect shows a particle |
| Explosions.ExplosionSystem.constructor | src/systems/ExplosionSystem.ts:123-124 | no explosions |
| Explosions.ExplosionSystem.CreateExplosion | src/systems/ExplosionSystem.ts:126-133 | one new effect at the point, with the size's number of particles, is appended and the others are kept |
| Explosions.ExplosionSystem.CreatePlayerDeathExplosion | src/systems/ExplosionSystem.ts:135-138 | one new effect of 30 particles at the point is appended |
| Explosions.ExplosionSystem.PlayerDeathFollowUpRight | src/systems/ExplosionSystem.ts:140-142 | one new effect of 15 particles, 10 right and 5 below the point, is appended |
| Explosions.ExplosionSystem.PlayerDeathFollowUpLeft | src/systems/ExplosionSystem.ts:144-146 | one new effect of 15 particles, 10 left and 5 below the point, is appended |
| Explosions.ExplosionSystem.CreateAlienDeathExplosion | src/systems/ExplosionSystem.ts:149-151 | one small effect of 10 particles is appended |
| Explosions.ExplosionSystem.CreateBuildingHitExplosion | src/systems/ExplosionSystem.ts:153-155 | one small effect of 10 particles is appended |
| Explosions.ExplosionSystem.Update | src/systems/ExplosionSystem.ts:157-168 | every effect's particles decay by the frame time, and the list keeps, in order, exactly the effects that showed a particle before the frame |
| Explosions.ExplosionSystem.Sweep | src/systems/ExplosionSystem.ts:159-167 | the backwards loop with removal leaves the kept effects in their order, each effect updated once |
| Explosions.ExplosionSystem.Clear | src/systems/ExplosionSystem.ts:176-178 | no explosions remain |
| Explosions.ExplosionSystem.GetTotalParticleCount | src/systems/ExplosionSystem.ts:184-188 | zero exactly when no effect shows a particle |
| Buildings.MarkFirst | src/entities/Building.ts:100-108 | the damage grid, read row by row, keeps its length |
| Buildings.MarkFirstCount | src/entities/Building.ts:100-108 | marking never repairs a section, and it damages exactly min(k, undamaged sections) more of them (none for k ≤ 0) |
| Buildings.BudgetExhausted | src/entities/Building.ts:101-102 | once k sections have been marked the rest of the grid is left as it was |
| Buildings.MarkStep | src/entities/Building.ts:101-106 | while fewer than k sections have been marked, the next section ends damaged, and the count grows exactly when it was undamaged |
| Buildings.Building.constructor | src/entities/Building.ts:9-21 | a building object at the point with the building's size, kind and colour, at full health 100, with all 20 sections undamaged |
| Buildings.Building.Update | src/entities/Building.ts:23-28 | the building leaves play exactly when its health is not positive |
| Buildings.Building.TakeDamage | src/entities/Building.ts:87-94 | the health drops by the damage, not below 0; the first ⌊(100 − health) × 20 / 100⌋ undamaged sections, row by row, become damaged; the building leaves play exactly when the health reaches 0 |
| Buildings.Building.ApplyVisualDamage | src/entities/Building.ts:96-109 | the grid, read row by row, becomes MarkFirst of the old grid for the number of sections the health calls for |
| Buildings.Building.MarkRow | src/entities/Building.ts:102-107 | one pass of the inner loop over a row leaves the rows so far marked as MarkFirst says and the later rows untouched |
| Buildings.Building.Repair | src/entities/Building.ts:127-134 | the health is back to 100 and every section is undamaged |
| Buildings.Building.Destroy | src/entities/Building.ts:136-139 | the building is out of play with health 0 |
| BuildingManagers.Standing | src/systems/BuildingManager.ts:31 | the filter's marks: building i is kept exactly when it is in play |
| BuildingManagers.KeptLength | src/systems/BuildingManager.ts:31 | filtering keeps every building exactly when all are in play, and none exactly when none is |
| BuildingManagers.KeptNoDup | src/systems/BuildingManager.ts:31 | filtering a list without repeats gives one without repeats |
| BuildingManagers.BuildingManager.constructor | src/systems/BuildingManager.ts:7-10 | the opening row: 5 new buildings at the start x plus i × spacing on the building row, in play and at full health |
| BuildingManagers.BuildingManager.InitializeBuildings | src/systems/BuildingManager.ts:12-21 | the list is replaced by the opening row of new buildings |
| BuildingManagers.BuildingManager.Update | src/systems/BuildingManager.ts:23-32 | each building leaves play exactly when its health is not positive, and the list keeps, in order, exactly the buildings still in play |
| BuildingManagers.BuildingManager.SettleAll | src/systems/BuildingManager.ts:24-28 | the update loop: each building in play leaves it exactly when its health is not positive |
| BuildingManagers.BuildingManager.DropFallen | src/systems/BuildingManager.ts:31 | the list keeps, in order, exactly the buildings in play |
| BuildingManagers.BuildingManager.GetBuildings | src/systems/BuildingManager.ts:42-44 | the result holds exactly the buildings of the list that are in play |
| BuildingManagers.BuildingManager.CheckCollisionWithProjectile | src/systems/BuildingManager.ts:50-90 | no building is returned exactly when the box strictly overlaps no building in play; otherwise the first building in play, in list order, that it overlaps |
| BuildingManagers.BuildingManager.Reset | src/systems/BuildingManager.ts:92-94 | the list is replaced by the opening row of new buildings |
| BuildingManagers.BuildingManager.GetBuildingCount | src/systems/BuildingManager.ts:96-98 | the count is the number of listed buildings in play; so it equals the list's length exactly when all are in play, and is 0 exactly when none is |
| BuildingManagers.BuildingManager.IsAnyBuildingAtPosition | src/systems/BuildingManager.ts:100-115 | true exactly when the point lies inside or on the edge of some building in play |
| Collisions.CellIndexMonotone | src/core/CollisionSystem.ts:43-46 | a point further right or down never falls in an earlier cell |
| Collisions.ColumnCellsMembers | src/core/CollisionSystem.ts:49-51 | the inner loop lists exactly the cells of one column between the two rows, once each |
| Collisions.BlockCellsMembers | src/core/CollisionSystem.ts:48-52 | the nested loops list exactly the cells of the block between the two columns and rows, once each |
| Collisions.CellsOfExact | src/core/CollisionSystem.ts:41-55 | an entity's cells are exactly those between the cells of its top-left and bottom-right corners, once each |
| Collisions.OverlapSharesCell | src/core/CollisionSystem.ts:41-63 | two strictly overlapping boxes of non-negative size always share a cell, so the grid can find every overlap |
| Collisions.OccupantsMembers | src/core/CollisionSystem.ts:27-39 | a cell lists exactly the entities in play whose box spans it |
| Collisions.OccupantsSkip | src/core/CollisionSystem.ts:29 | an entity out of play is not filed anywhere |
| Collisions.FilingDone | src/core/CollisionSystem.ts:31-37 | once an entity is pushed onto each of its cells the grid holds the filing of all entities so far |
| Collisions.CandidatesOfHolds | src/core/CollisionSystem.ts:71-72 | reading a grid filled from a list gives the same candidates as scanning the list cell by cell |
| Collisions.NearMembers | src/core/CollisionSystem.ts:71-72 | a candidate is an entity of the list in play spanning one of the queried cells |
| Collisions.FoundExact | src/core/CollisionSystem.ts:74-86 | a query reports exactly the candidates that are other entities of another kind with a strictly overlapping box, each once |
| Collisions.FoundStep | src/core/CollisionSystem.ts:75-85 | one more candidate is appended exactly when it is a new hit |
| Collisions.SomeActiveAppend | src/core/CollisionSystem.ts:99 | whether some bullet is in play after one more |
| Collisions.Pairs | src/core/CollisionSystem.ts:103-109 | one contact per colliding entity, in order, with the querying entity first |
| Collisions.CandidatesStep | src/core/CollisionSystem.ts:71-72 | one more cell adds its list to the candidates |
| Collisions.BulletAlienContactsStep | src/core/CollisionSystem.ts:98-110 | one more bullet adds its contacts when it is in play and none otherwise |
| Collisions.BombContactsStep | src/core/CollisionSystem.ts:118-129 | one more bomb adds its contacts when it is in play and none otherwise |
| Collisions.BombPlayerContactsStep | src/core/CollisionSystem.ts:141-151 | one more bomb adds a contact exactly when it is in play and overlaps the player |
| Collisions.CollisionSystem.constructor | src/core/CollisionSystem.ts:13-16 | an empty grid and cell size 50 |
| Collisions.CollisionSystem.Update | src/core/CollisionSystem.ts:18-39 | the grid becomes exactly the filing of the given entities: each cell lists, in order, the entities in play spanning it, and no cell is kept empty |
| Collisions.CollisionSystem.File | src/core/CollisionSystem.ts:28-38 | one pass of the filing loop extends the filing by one entity |
| Collisions.CollisionSystem.FileAt | src/core/CollisionSystem.ts:32-37 | one pass of the inner loop files the entity in one more cell |
| Collisions.CollisionSystem.Push | src/core/CollisionSystem.ts:33-36 | the entity is appended to the cell's list, an absent cell starting empty |
| Collisions.CollisionSystem.GetCellsForEntity | src/core/CollisionSystem.ts:41-55 | the cells are the block between the corners' cells, column by column, top to bottom |
| Collisions.CollisionSystem.AppendColumn | src/core/CollisionSystem.ts:49-51 | the inner loop appends one column of cells |
| Collisions.CollisionSystem.CheckEntityCollisions | src/core/CollisionSystem.ts:66-90 | the result is the hits among the entity's cells' lists, in order of first appearance, each once |
| Collisions.CollisionSystem.ScanCell | src/core/CollisionSystem.ts:74-86 | one cell's list extends the hits found so far, and the checked set stays the set of hits |
| Collisions.CollisionSystem.ScanOne | src/core/CollisionSystem.ts:75-85 | one candidate extends the hits found so far, and the checked set stays the set of hits |
| Collisions.CollisionSystem.CheckBulletAlienCollisions | src/core/CollisionSystem.ts:92-113 | the contacts are, bullet by bullet in play, its hits among the aliens; after some bullet in play the grid holds the aliens, and with none it is unchanged |
| Collisions.CollisionSystem.BulletTurn | src/core/CollisionSystem.ts:99-109 | one pass of the bullet loop extends the contacts by that bullet's |
| Collisions.CollisionSystem.CheckBulletAgainst | src/core/CollisionSystem.ts:101-109 | the grid is refilled with the aliens and the bullet's contacts are its hits among them |
| Collisions.CollisionSystem.CheckBombCollisions | src/core/CollisionSystem.ts:115-132 | the contacts are, bomb by bomb in play, its hits in the current grid; the targets list is not read |
| Collisions.CollisionSystem.CheckBombPlayerCollisions | src/core/CollisionSystem.ts:134-154 | the contacts are the bombs in play overlapping the player, in order, and none when the player is out of play |
| Collisions.CheckAABBCollisionStrict | src/core/CollisionSystem.ts:57-64 | the test is strict box overlap; it is symmetric, and boxes that only touch do not collide |
| Collisions.QueryExact | src/core/CollisionSystem.ts:18-90 | against a grid filled from a list, a query reports exactly the entities of the list in play that it hits, each once |
| Collisions.BulletAlienContactsExact | src/core/CollisionSystem.ts:92-113 | a bullet–alien contact is reported exactly when the bullet is in play, the alien is in play and they hit |
| Collisions.ContactsWithin | src/core/CollisionSystem.ts:92-113 | every contact pairs a bullet in play from the list with an alien from the list |
| Collisions.HoldsNear | src/core/CollisionSystem.ts:101-102 | one bullet's query against the freshly filled aliens reports exactly the aliens in play it hits |
| Collisions.BombPlayerContactsExact | src/core/CollisionSystem.ts:134-154 | a bomb–player contact is reported exactly when the player is in play and the bomb is in play and overlaps it |
| CollisionEffects.ComboAfter | src/core/Game.ts:318-335 | after n alien hits scored in one frame the multiplier is 1× plus n halves when the first hit came a second or more after the last, and the old multiplier plus n halves otherwise, capped at 3× |
| CollisionEffects.RunPoints | src/core/Game.ts:318-335 | n alien hits in one frame earn between n and 3n times the points |
| CollisionEffects.ScoredTwice | src/core/Game.ts:318-335 | an alien named by two contacts is scored twice |
| CollisionEffects.ScoredOnce | src/core/Game.ts:318-335 | an alien named by a contact is scored at least once |
| CollisionEffects.DoubleHitScoresTwice | src/core/Game.ts:313-335 | two bullets in play that both hit the same alien in one frame score it twice |
| CollisionEffects.StruckMask | src/systems/BuildingManager.ts:56-75 | which buildings a box strictly overlaps while they stand |
| CollisionEffects.Damaged | src/entities/Building.ts:87-94 | a damaged building keeps its box, its health stays non-negative, drops by at most the damage and never rises, and it stands exactly while it stood and has health left |
| CollisionEffects.Fire | src/core/Game.ts:338-355 | a shot is spent exactly when it is live and strikes a standing building; a spent shot changes only buildings it strikes, by Damaged, and a shot that is not spent changes none |
| CollisionEffects.Volley | src/core/Game.ts:338-355 | after the projectiles in turn, buildings keep their boxes, never stand again once fallen, lose health without going below 0, and only live projectiles are spent |
| CollisionEffects.SpentOnStandingWall | src/core/Game.ts:338-355 | a live projectile that is spent overlapped a building standing at the start |
| CollisionEffects.UnstruckWallKept | src/core/Game.ts:338-355 | a building no live projectile overlaps is left as it was |
| CollisionEffects.VolleyHealthLoss | src/core/Game.ts:338-355 | the row loses at most the damage times the number of spent projectiles in total health |
| CollisionEffects.FireHealthLoss | src/core/Game.ts:348-351 | one projectile takes at most the damage from the row, and nothing when it is not spent |
| CollisionEffects.StrikeOne | src/core/Game.ts:339-354 | the live objects change as Fire says: the first standing building overlapped takes the damage and the projectile is spent |
| CollisionEffects.StrikeBuildings | src/core/Game.ts:338-355 | the bullet–building phase leaves the row and the projectiles as Volley says, and marks each projectile that was spent |
| CollisionEffects.StrikeStep | src/core/Game.ts:339-354 | one pass of the projectile loop extends the volley by one projectile |
| CollisionEffects.BombBuildings | src/core/Game.ts:418-439 | the bomb–building phase leaves the row and the bombs as Volley says with damage 20, and adds one small burst per spent bomb |
| CollisionEffects.BurstAll | src/core/Game.ts:434 | one burst of 10 particles per marked projectile is appended, in order |
| CollisionEffects.MarksCount | src/core/Game.ts:429-435 | the number of marked projectiles is the number spent |
| CollisionEffects.FindHit | src/core/Game.ts:358-381 | the result is the first live bullet that strictly overlaps the ship, or −1 |
| CollisionEffects.ShootDown | src/core/Game.ts:357-382 | with no ship in play no bullet is checked; otherwise the first live bullet overlapping it is spent, the ship is destroyed and its value scored as AddScore does with reason "ufo" (multiplier by NextHalves, award added, last hit now, the event appended, the high score following), and no other bullet changes; with no hit nothing changes |
| CollisionEffects.ApplyAlienHits | src/core/Game.ts:318-335 | both entities of every contact leave play and nothing else does; the score grows by RunPoints, the multiplier becomes ComboAfter, one event per contact is recorded, and the high score follows |
| CollisionEffects.AlienPhase | src/core/Game.ts:312-335 | the bullet–alien contacts of the frame are applied as ApplyAlienHits says |
| CollisionEffects.BombsHitPlayer | src/core/Game.ts:392-415 | every contacting bomb leaves play and no other bomb does; when there was a contact and the player was not respawning, the player loses a life and leaves play, the respawn starts now, and a 30-particle burst appears at the player's centre; otherwise the player and the bursts are unchanged |
| CollisionEffects.PlayerPhase | src/core/Game.ts:384-416 | the bomb–player contacts of the frame are applied as BombsHitPlayer says |
| Players.StepLeft | src/entities/Player.ts:72-76 | the cannon moves left by its speed, stopping at 0 |
| Players.StepRight | src/entities/Player.ts:78-82 | the cannon moves right by its speed, stopping where its right edge meets the screen's |
| Players.SteerStaysOnScreen | src/entities/Player.ts:44-50 | a cannon on screen stays on screen whatever keys are held |
| Players.BothKeysCancel | src/entities/Player.ts:44-50 | with both direction keys held and room on both sides the cannon stays put |
| Players.LivesAfterHit | src/entities/Player.ts:113-116 | a hit takes one life, never going below 0 |
| Players.LivesAfterHitsCount | src/entities/Player.ts:113-116 | after h hits a player with l lives has l − h left, or 0 once h reaches l |
| Players.ThreeHitsEndTheGame | src/entities/Player.ts:113-116 | from the 3 starting lives two hits leave some, three leave none |
| Players.ClampLives | src/entities/Player.ts:143 | a negative number of lives becomes 0 and any other is kept |
| Players.Player.constructor | src/entities/Player.ts:17-25 | a cannon at the point, in play, in its colour, free to shoot, last shot at 0 and 3 lives, with no bullet pool or input yet |
| Players.Player.SetBulletPool | src/entities/Player.ts:31-33 | the cannon's bullet pool becomes the given one |
| Players.Player.SetInputSystem | src/entities/Player.ts:27-29 | the cannon's input becomes the given keys |
| Players.Player.Update | src/entities/Player.ts:39-56 | without input nothing changes; with input the cannon moves as the left then right keys say (`Steer`); with the shoot key held, a cannon whose cooldown has run out, which is armed and whose pool has room fires one bullet, appended to the pool's in-use list at the centre of its top edge, and records the shot; otherwise its shot state is kept; it never moves vertically or leaves play |
| Players.Player.MoveLeft | src/entities/Player.ts:72-76 | the position becomes StepLeft of the old one |
| Players.Player.MoveRight | src/entities/Player.ts:78-82 | the position becomes StepRight of the old one |
| Players.Player.Shoot | src/entities/Player.ts:84-107 | a bullet is fired exactly when the cooldown has passed, the cannon may shoot, it has a pool, and the pool can give a bullet; a fired bullet appears at the cannon's centre less 2, at its top, in play, appended to the pool's bullets in use, and the shot time becomes now and shooting is blocked; otherwise nothing changes |
| Players.Player.CooldownElapsed | src/entities/Player.ts:102-104 | the cannon may shoot again |
| Players.Player.LoseLife | src/entities/Player.ts:113-116 | one life is lost as LivesAfterHit says and the cannon leaves play |
| Players.Player.Reset | src/entities/Player.ts:118-125 | the cannon is at the given point in play with 3 lives, free to shoot and last shot at 0 |
| Players.Player.Respawn | src/entities/Player.ts:127-136 | with lives left the cannon is back at its start in play, free to shoot, last shot at 0; without lives nothing changes |
| Players.Player.SetLives | src/entities/Player.ts:142-147 | the lives become the given number clamped at 0, and the cannon leaves play exactly when none are left |
| Players.Player.Destroy | src/entities/Player.ts:149-151 | the cannon is out of play |
| PlayerLives.RespawnProgress | src/systems/PlayerLifeManager.ts:103-108 | progress is complete (1) when not respawning or once the delay has passed, and otherwise the elapsed share of the delay; it lies in [0, 1] |
| PlayerLives.RespawnProgressMonotone | src/systems/PlayerLifeManager.ts:103-108 | progress never goes back as time passes |
| PlayerLives.PlayerLifeManager.constructor | src/systems/PlayerLifeManager.ts:5-15 | the manager of the given cannon, delay 2000, last death at 0, not respawning |
| PlayerLives.PlayerLifeManager.HandlePlayerDeath | src/systems/PlayerLifeManager.ts:21-43 | while respawning nothing changes and no respawn is scheduled; otherwise the death time is now, respawning starts, the cannon loses a life and leaves play, and a respawn is scheduled exactly when lives remain |
| PlayerLives.PlayerLifeManager.RespawnPlayer | src/systems/PlayerLifeManager.ts:45-58 | respawning ends; with lives left the cannon is back at its start, in play and free to shoot, and otherwise it is left as it was |
| PlayerLives.PlayerLifeManager.Reset | src/systems/PlayerLifeManager.ts:72-76 | the cannon is back at its start with 3 lives, in play and free to shoot; last death at 0 and not respawning |
| PlayerLives.PlayerLifeManager.SetLives | src/systems/PlayerLifeManager.ts:78-83 | the lives become the number clamped at 0; with none left the cannon leaves play and respawning ends |
| PlayerLives.PlayerLifeManager.ForceRespawn | src/systems/PlayerLifeManager.ts:85-89 | a cannon with lives left and out of play is respawned as RespawnPlayer says; otherwise nothing changes |
| PlayerLives.PlayerLifeManager.SetRespawnDelay | src/systems/PlayerLifeManager.ts:91-93 | the delay becomes the given one |
| PlayerLives.PlayerLifeManager.GetRespawnProgress | src/systems/PlayerLifeManager.ts:99-108 | the progress is RespawnProgress of the state and the time since death |
| Levels.MinReal | src/systems/LevelManager.ts:52-53 | the smaller of two numbers |
| Levels.ConfigFor | src/systems/LevelManager.ts:45-56 | a level's settings: its number; bomb frequency at most 0.5 and ship chance at most 0.8; from level 1 on, at least the base speed, 0.1, 0.3 and 1×; exactly those at level 1 |
| Levels.ConfigMonotone | src/systems/LevelManager.ts:45-56 | a higher level never lowers the alien speed, bomb frequency, ship chance or score multiplier |
| Levels.ConfigCaps | src/systems/LevelManager.ts:52-53 | the bomb frequency reaches its 0.5 cap exactly from level 21, the ship chance its 0.8 cap exactly from level 11 |
| Levels.MoveIntervalFor | src/systems/LevelManager.ts:106-107 | from level 1 on, the alien move interval is positive and at most 500 ms |
| Levels.MoveIntervalShrinks | src/systems/LevelManager.ts:106-107 | a higher level always moves the aliens more often |
| Levels.ProgressAt | src/systems/LevelManager.ts:123-129 | the current level capped at the last, out of the number of levels, as a percentage in (0, 100] from level 1 on |
| Levels.CompleteProgressAt | src/systems/LevelManager.ts:131-136 | the time left before the next level is never negative, is 0 exactly once the delay has passed, and is the rest of the delay before that |
| Levels.LevelManager.constructor | src/systems/LevelManager.ts:15-27 | level 1, not completed, complete time 0, over the given grid, buildings, ship system and scoring |
| Levels.LevelManager.CheckLevelCompletion | src/systems/LevelManager.ts:73-76 | a level is complete exactly when no alien is in play |
| Levels.LevelManager.CompleteLevel | src/systems/LevelManager.ts:78-88 | the level is marked completed with complete time 0; 1000 × the level is scored as AddScore does with reason "level-complete" (multiplier by NextHalves, award added, last hit now, the event appended, the high score following); a bonus ship appears unless one is already in play |
| Levels.LevelManager.SetupLevel | src/systems/LevelManager.ts:103-114 | the aliens are back in their starting layout moving right with the level's move interval; the opening row of buildings is rebuilt; no ship, ship time 0 |
| Levels.LevelManager.NextLevel | src/systems/LevelManager.ts:90-101 | after the last level nothing changes; otherwise the level goes up by one, completion is cleared and the level is set up |
| Levels.LevelManager.Reset | src/systems/LevelManager.ts:116-121 | back at level 1, not completed, with level 1 set up |
| Levels.LevelManager.Update | src/systems/LevelManager.ts:58-71 | a level not yet completed completes when no alien is in play, scoring its bonus as CompleteLevel does (multiplier, award, last hit, event, high score) and calling a bonus ship into an empty sky; a completed level counts the frame time, and the next level is set up once 2000 ms have passed unless the game is already won; otherwise formation, buildings, UFO and scoring are left as they were |
| Games.TransitionShape | src/core/GameStateManager.ts:68-80 | no state moves to itself; pause, game-over and level-complete are entered only from play; the menu only from pause, game-over or victory; the menu leads only to play |
| Games.MenuReachable | src/core/GameStateManager.ts:68-80 | from every state a path of accepted transitions of at most two steps leads to the menu |
| Games.ReachableFromMenu | src/core/GameStateManager.ts:68-80 | every state is reached from the menu by a path of accepted transitions of at most three steps |
| Games.AfterEnter | src/core/Game.ts:203-209 | Enter changes the state exactly in the menu, after game-over and after victory, and only along an accepted transition |
| Games.AfterEscape | src/core/Game.ts:212-218 | Escape changes the state exactly in play and in pause, and only along an accepted transition |
| Games.EscapeToggles | src/core/Game.ts:199-219 | Escape twice restores play or pause; Enter and Escape in one frame from the menu leave the game paused; Enter alone never pauses |
| Games.LevelScaling | src/core/GameStateManager.ts:299-312 | the level multiplier is exactly 1 on level 1 |
| Games.ScalingGrows | src/core/GameStateManager.ts:299-312 | with a non-negative step the multiplier is at least 1 and never falls as the level rises |
| Games.ScalingOrder | src/core/GameStateManager.ts:299-312 | on every level the speed multiplier is at most the fire-rate multiplier, which is at most the UFO-chance multiplier |
| Games.FrameDelta | src/core/Game.ts:133-137 | the frame's time step is 16.67 ms on the first frame, otherwise the elapsed time capped at 100 ms, and never negative when time runs forward |
| Games.AfterLevelBonus | src/core/GameStateManager.ts:127-140 | the level bonus adds 1000 × level to the score, the high score follows, and every bomb in flight goes back to the pool; level, lives and the cannon are untouched |
| Games.GameStateManager.constructor | src/core/GameStateManager.ts:4-22 | a new manager is in the menu, coming from the menu, on level 1 with no aliens destroyed and no timer running |
| Games.GameStateManager.SetCurrentState | src/core/GameStateManager.ts:32-38 | a refused transition changes nothing; an accepted one records the previous state, sets the new one and performs that state's entry actions |
| Games.GameStateManager.Request | src/core/GameStateManager.ts:32-38 | the same as SetCurrentState on a whole game, which stays consistent and keeps its UFO |
| Games.GameStateManager.OnStateEnter | src/core/GameStateManager.ts:82-103 | dispatches to the entry actions of the state just entered |
| Games.GameStateManager.OnEnterMenu | src/core/GameStateManager.ts:105-113 | entering the menu resets the manager to level 1 with none destroyed and the game to level 1, three lives and score 0 |
| Games.GameStateManager.OnEnterPlaying | src/core/GameStateManager.ts:115-119 | entering play leaves the manager and the game's scores, lives and bombs as they were |
| Games.GameStateManager.OnEnterPaused | src/core/GameStateManager.ts:121-125 | entering pause leaves the manager and the game's scores, lives and bombs as they were |
| Games.GameStateManager.OnEnterLevelComplete | src/core/GameStateManager.ts:127-140 | entering level-complete zeroes the timer, adds the level bonus and clears the bombs |
| Games.GameStateManager.OnEnterGameOver | src/core/GameStateManager.ts:142-149 | entering game-over starts the 3000 ms timer and changes nothing else |
| Games.GameStateManager.OnEnterVictory | src/core/GameStateManager.ts:151-158 | entering victory starts the 3000 ms timer and changes nothing else |
| Games.GameStateManager.StartGame | src/core/GameStateManager.ts:249-253 | from the menu play begins; from any other state nothing changes |
| Games.GameStateManager.PauseGame | src/core/GameStateManager.ts:255-259 | from play the game pauses; from any other state nothing changes |
| Games.GameStateManager.ResumeGame | src/core/GameStateManager.ts:261-265 | from pause play resumes; from any other state nothing changes |
| Games.GameStateManager.ReturnToMenu | src/core/GameStateManager.ts:267-271 | from pause, game-over or victory the menu is entered with its resets; from any other state nothing changes |
| Games.GameStateManager.Update | src/core/GameStateManager.ts:40-66 | one step of the manager: when the game-over or victory timer runs out the menu is entered with a fresh game; when the level-complete timer runs out the next level starts, or victory after the last level, or game-over with no lives; a running timer only counts down; level-complete arms its 2000 ms timer once the UFO has gone; in the menu and in pause only the timer moves; in play a cleared field with no UFO gives level-complete with its timer at 0 and the level bonus (`AfterLevelBonus`), else no lives left gives game-over with its 3000 ms timer, else only the timer moves |
| Games.GameStateManager.Tick | src/core/GameStateManager.ts:40-49 | the timer counts down by the frame's time step; on expiry the timed transition of the current state is taken, otherwise nothing else changes |
| Games.GameStateManager.Expire | src/core/GameStateManager.ts:42-48 | an expired timer takes game-over and victory to a fresh menu and level-complete to the next level or to victory |
| Games.GameStateManager.StateStep | src/core/GameStateManager.ts:51-65 | in play: a cleared field with no UFO gives level-complete with the bonus, else no lives gives game-over; at level-complete the timer is armed once the UFO has gone; other states are untouched |
| Games.GameStateManager.HandleTimedTransition | src/core/GameStateManager.ts:217-227 | level-complete moves to the next level, game-over and victory to the menu, the other states stay |
| Games.GameStateManager.ExpireToMenu | src/core/GameStateManager.ts:222-225 | from game-over or victory the menu is entered with its resets |
| Games.GameStateManager.StartNextLevel | src/core/GameStateManager.ts:229-246 | the level number rises by one and the count of destroyed aliens restarts; past the last level victory is entered with its timer, otherwise play resumes on a new, uncleared field of that level with the lives kept |
| Games.GameStateManager.AdvanceTo | src/core/GameStateManager.ts:233-245 | the manager counts the next level and moves from level-complete to play or to victory, the victory timer set to 3000 ms |
| Games.GameStateManager.ResumeOnNewField | src/core/GameStateManager.ts:233-241 | play resumes on the next level with the game on that level and a new, uncleared formation |
| Games.GameStateManager.UpdatePlayingState | src/core/GameStateManager.ts:160-186 | a cleared field with no UFO in the sky ends the level with the bonus and launches the bonus UFO; else no lives left ends the game; else nothing changes |
| Games.GameStateManager.CheckDefeat | src/core/GameStateManager.ts:177-180 | in play with no lives left the game is over with its 3000 ms timer; otherwise nothing changes |
| Games.GameStateManager.CheckEnd | src/core/GameStateManager.ts:177-180 | the same defeat test, taken after the clearing test |
| Games.GameStateManager.CheckVictory | src/core/GameStateManager.ts:182-185 | up to the last level nothing changes |
| Games.GameStateManager.CheckCleared | src/core/GameStateManager.ts:164-175 | a cleared field with no UFO in the sky gives level-complete, the level bonus and a bonus UFO; otherwise nothing changes |
| Games.GameStateManager.CompleteWithBonus | src/core/GameStateManager.ts:164-175 | level-complete with the timer at 0, the bonus of the current level, and a new bonus UFO in flight |
| Games.GameStateManager.NoAliensLeft | src/core/GameStateManager.ts:165 | true exactly when no alien of the formation is left alive |
| Games.GameStateManager.UpdateLevelCompleteState | src/core/GameStateManager.ts:188-207 | the 2000 ms timer is armed once, when it is at 0 and the UFO has gone; otherwise it is kept |
| Games.GameStateManager.IncrementAliensDestroyed | src/core/GameStateManager.ts:290-292 | one more alien destroyed |
| Games.GameStateManager.GetLevelProgress | src/core/GameStateManager.ts:294-296 | the share of the 48 aliens destroyed, between 0 and 1 while the count is |
| Games.GameStateManager.GetAlienSpeedMultiplier | src/core/GameStateManager.ts:299-302 | the level multiplier with step 0.1 |
| Games.GameStateManager.GetAlienFireRateMultiplier | src/core/GameStateManager.ts:304-307 | the level multiplier with step 0.15 |
| Games.GameStateManager.GetUfoSpawnChanceMultiplier | src/core/GameStateManager.ts:309-312 | the level multiplier with step 0.2 |
| Games.AssembleField | src/core/Game.ts:83-125 | a consistent formation, building row, empty UFO slot and scoring system with score 0 and the saved high score, on separate footprints |
| Games.Game.constructor | src/core/Game.ts:43-125 | a new game is consistent, in the menu on level 1, with score 0, the saved high score, three lives, an active cannon whose input system holds no key, and no UFO, bullet, bomb or explosion |
| Games.Game.Pause | src/core/Game.ts:56-58 | play becomes pause; any other state is kept; scores and lives are untouched |
| Games.Game.Resume | src/core/Game.ts:60-62 | pause becomes play; any other state is kept; scores and lives are untouched |
| Games.Game.SetLevel | src/core/Game.ts:464-467 | only the level changes |
| Games.Game.SetLives | src/core/Game.ts:459-462 | the lives are set, clamped as the life manager clamps them, and the cannon stays alive only with lives left |
| Games.Game.SetScore | src/core/Game.ts:454-457 | the score is set and the high score follows it up |
| Games.Game.GetScoreAsWritten | src/core/Game.ts:442-444 | the score as read: always 0 |
| Games.Game.GetScore | src/systems/ScoringSystem.ts:63-65 | the score the scoring system holds, which is the score of the game's state |
| Games.Game.GetLives | src/core/Game.ts:446-448 | the cannon's remaining lives |
| Games.Game.StartNewLevel | src/core/Game.ts:486-504 | a new level: the starting formation moving right, the starting building row, no UFO, bullet, bomb or explosion, no armed aliens; scores, lives and level kept |
| Games.Game.BeginLevel | src/core/GameStateManager.ts:235-238 | the game shows the given level and starts it on a new, uncleared field |
| Games.Game.RebuildField | src/core/Game.ts:487-491 | the starting formation and building row; UFO, bullets, explosions, scores and lives untouched |
| Games.Game.Reform | src/core/Game.ts:487-488 | the starting formation moving right, nothing else touched |
| Games.Game.Raise | src/core/Game.ts:490-491 | the starting building row, the formation untouched |
| Games.Game.ClearSkies | src/core/Game.ts:493-503 | no UFO, bullet, bomb or explosion left, the UFO clock restarted, no armed aliens |
| Games.Game.ClearUfo | src/core/Game.ts:493-495 | the UFO slot is empty and its clock restarts; nothing else is touched |
| Games.Game.ClearShots | src/core/Game.ts:496-503 | no bullet, bomb or explosion left and no armed aliens; the UFO untouched |
| Games.Game.ClearBombs | src/core/Game.ts:506-509 | every bomb back in the pool and no alien armed |
| Games.Game.LaunchBonus | src/core/GameStateManager.ts:170 | a new bonus UFO flies in an empty sky; scores and lives untouched |
| Games.Game.CheckCollisions | src/core/Game.ts:301-440 | one collision pass keeps the game consistent and allocates no projectile |
| Games.Game.HitAliens | src/core/Game.ts:312-335 | every bullet-alien contact found deactivates both, and the score rises by the points of the aliens hit |
| Games.Game.ShotsOnBuildings | src/core/Game.ts:337-355 | bullets striking buildings leave the row's list as it was |
| Games.Game.ShootUfo | src/core/Game.ts:357-382 | with no UFO nothing happens; otherwise the first bullet strictly overlapping it is spent, the UFO is brought down, and its points are scored as AddScore does with reason "ufo" (multiplier by NextHalves, award added, last hit now, the event appended, the high score following); with no such bullet the UFO and score are kept |
| Games.Game.BombsOnPlayer | src/core/Game.ts:384-416 | a bomb touching the cannon when it is not respawning costs a life, deactivates it and starts the respawn at `now`; otherwise lives and the cannon are kept |
| Games.Game.Update | src/core/Game.ts:148-197 | one frame keeps the game and the state manager consistent, and the cannon's input system reports the frame's keys |
| Games.Game.Control | src/core/Game.ts:149-154 | after the manager's step the keys move the state as Enter then Escape do |
| Games.Game.StepMachine | src/core/Game.ts:150-151 | the manager steps and the game takes its state |
| Games.Game.HandleMenuInput | src/core/Game.ts:199-219 | Enter then Escape move the state as the key functions say; Enter after game-over or victory also resets level, lives and score |
| Games.Game.PressEnter | src/core/Game.ts:203-209 | Enter moves the state as AfterEnter says, resetting level, lives and score when leaving a finished game |
| Games.Game.StartFromMenu | src/core/Game.ts:204-205 | from the menu, play begins with nothing else changed |
| Games.Game.LeaveFinishedGame | src/core/Game.ts:206-207 | from game-over or victory, the menu with level 1, three lives and score 0 |
| Games.Game.PressEscape | src/core/Game.ts:212-218 | Escape moves the state as AfterEscape says, nothing else changed |
| Games.Game.PauseFromPlay | src/core/Game.ts:213-214 | from play, pause |
| Games.Game.ResumeFromPause | src/core/Game.ts:215-216 | from pause, play |
| Games.Game.RunSystems | src/core/Game.ts:159-188 | outside play and level-complete the UFO, scores, bullets, bombs and cannon are untouched and no random draw is taken |
| Games.Game.MovePlayer | src/core/Game.ts:190-194 | the input system reports the frame's keys; the cannon steers by them (`Steer`); without the shoot key its shot state is kept; with it, a cannon allowed to fire whose pool has room appends one bullet at the centre of its top edge and records the shot, and otherwise its shot state is kept |
| Games.Game.FlyUfo | src/core/Game.ts:164 | the UFO's clock advances by the frame; a ship is spawned (two draws, new spawn time) exactly when spawning is allowed, the sky is empty and the spawn time has come, and otherwise no draw is taken and the spawn time is kept; a ship in play moves one frame and leaves the slot once past its exit; a new ship is ordinary, enters from the side its draw says and has moved one frame, and for a frame of at most 100 ms it stays |
| Games.AfterLevelBonusAsWritten | src/core/GameStateManager.ts:127-140 | the level-complete entry as computed: the new score is the bonus alone, and the bombs are cleared as in the corrected entry |
| Games.LevelBonusLosesScore | src/core/GameStateManager.ts:133-134 | with points already scored, the computed score after the bonus is below the intended one and equals the intended one for a player who had scored nothing |

## Left out

- Rendering, the UI system and the audio system are not modelled. The input system is modelled as the keys it reports: `Games.Game.Update` takes Enter and Escape as booleans and the cannon's left, right and shoot keys as a `Players.Keys` value, which the game hands to the cannon before moving it.
- `requestAnimationFrame` and the game loop are not modelled. One call to `Games.Game.Update` is one frame. Its time step is given; `Games.FrameDelta` models how the loop computes that step.
- Floating point is not modelled: `real` arithmetic is exact, and `Math.floor` of a draw is an exact floor.
- The high score in `localStorage` is a constructor parameter (`savedHighScore`), and saving it back is not modelled.
- The random shuffle `sort(() => Math.random() - 0.5)` in the bomb system is not modelled. Its result is a parameter, and the model proves only the properties every shuffle keeps: a permutation of the active aliens.
- Timers set with `setTimeout` are not modelled as delays. This covers the cannon's respawn delay, the shot cooldown and the bursts after a cannon's death. Each callback is a method that the caller invokes when its delay has passed.
- `ScoringSystem.getStats` and `getScoreHistory` are not modelled: they only report data and change nothing.
- The default `count` of 5 in `ScoringSystem.getRecentScoreEvents` is not modelled: `Scoring.ScoringSystem.GetRecentScoreEvents` always takes the count, and a caller that gives none is modelled by passing 5.
- The objects' own `update` in `BasePool.update` is not modelled through the abstract pool. Each concrete pool moves its objects, then sweeps the inactive ones.
- The source's `console.log` calls and sound triggers are not modelled.
- The order in `Games.Game.StartNewLevel` is not modelled: the skies are cleared before the field is rebuilt. The subsystems share no state, so the outcome is the same as the source's order.
- Games.Game.Update: states that one frame keeps the game and its state manager consistent and hands the frame's keys to the cannon. Its parts are specified separately: the manager's step (`Games.Game.Control`), the keys (`Games.Game.HandleMenuInput`), the collision phases, the gating of the subsystems (`Games.Game.RunSystems`) and the cannon (`Games.Game.MovePlayer`). The composition of every subsystem's frame was too costly to state in one postcondition.
- Games.Game.CheckCollisions: states consistency and that no projectile is allocated. Its phases carry the meaning: `HitAliens`, `ShotsOnBuildings`, `ShootUfo` and `BombsOnPlayer` in the `Games` module, and `CollisionEffects.Volley` and `CollisionEffects.Fire` for the buildings.
- Games.Game.ShotsOnBuildings: states only that the row's list is kept. What the bullets do to the buildings is stated by `CollisionEffects.Volley` and `CollisionEffects.Fire`.
- Games.Game.RunSystems: states the gating outside play and level-complete. In play, each subsystem's frame is stated by that subsystem's own method.
- Games.GameStateManager.SetCurrentState: models the intended level bonus, the score plus 1000 × level (`Games.AfterLevelBonus`). The source's `Game.getScore` reads a field that is never written, so as written the score becomes 1000 × level; see Findings.
- Games.GameStateManager.Request: models the intended level bonus, the score plus 1000 × level (`Games.AfterLevelBonus`). The source's `Game.getScore` reads a field that is never written, so as written the score becomes 1000 × level; see Findings.
- Games.GameStateManager.OnStateEnter: models the intended level bonus, the score plus 1000 × level (`Games.AfterLevelBonus`). The source's `Game.getScore` reads a field that is never written, so as written the score becomes 1000 × level; see Findings.
- Games.GameStateManager.OnEnterLevelComplete: models the intended level bonus, the score plus 1000 × level (`Games.AfterLevelBonus`). The source's `Game.getScore` reads a field that is never written, so as written the score becomes 1000 × level; see Findings.
- Games.GameStateManager.CompleteWithBonus: models the intended level bonus, the score plus 1000 × level (`Games.AfterLevelBonus`). The source's `Game.getScore` reads a field that is never written, so as written the score becomes 1000 × level; see Findings.
- Games.GameStateManager.CheckCleared: models the intended level bonus, the score plus 1000 × level (`Games.AfterLevelBonus`). The source's `Game.getScore` reads a field that is never written, so as written the score becomes 1000 × level; see Findings.
- Games.GameStateManager.UpdatePlayingState: models the intended level bonus, the score plus 1000 × level (`Games.AfterLevelBonus`). The source's `Game.getScore` reads a field that is never written, so as written the score becomes 1000 × level; see Findings.
- Games.GameStateManager.StateStep: models the intended level bonus, the score plus 1000 × level (`Games.AfterLevelBonus`). The source's `Game.getScore` reads a field that is never written, so as written the score becomes 1000 × level; see Findings.
- Games.GameStateManager.Update: models the intended level bonus, the score plus 1000 × level (`Games.AfterLevelBonus`). The source's `Game.getScore` reads a field that is never written, so as written the score becomes 1000 × level; see Findings.
- Buildings.Building.TakeDamage: the number of sections to mark is computed exactly, as ⌊(100 − health) × 20 / 100⌋. The source computes `Math.floor((1 - health / 100) * 20)` in floating point, which gives 3 rather than 4 at health 80, so after a first bomb hit (20 points) the source marks one section fewer than the model.
- Buildings.Building.ApplyVisualDamage: the same exact count; at health 80 the source's floating-point floor marks 3 sections and the model marks 4.
- Games.GameStateManager.CheckVictory: states only that nothing changes up to the last level. Past the last level the source's test is dead code, because `startNextLevel` moves to victory first.
- Games.GameStateManager.GetLevelProgress: the source divides by 48 in floating point. The model states the exact product.
- PlayerLives.PlayerLifeManager.SetRespawnDelay: requires a positive delay, which the life manager's invariant keeps. The source accepts any number.
- Levels.LevelManager.SetupLevel: requires level 1 or more. Levels below 1 are never requested, and the level table is not defined for them.
- Levels.LevelManager.NextLevel: requires level 1 or more, for the same reason.
- The `GameStateManager`'s `updateGameOverState` and `updateVictoryState` are empty in the source and are not modelled.
- The getters that only return one field (`GetLevel`, `GetState`, `GetCurrentState` and the like) are modelled but have no contract of their own.

## Findings

| source | as written | input that shows it | evidently intended | confidence | as-written member | corrected member |
|---|---|---|---|---|---|---|
| src/core/Game.ts:442-444, src/core/GameStateManager.ts:133-134 | `getScore` returns the game's own `score` field. Nothing ever writes that field, so it is always 0. The level bonus is then set as `getScore() + bonus`. | A player with 500 points completes level 1 and is left with 1000 instead of 1500. | The score is the scoring system's score, and completing a level adds the bonus to it. | not executed | Games.LevelBonusLosesScore | Games.AfterLevelBonus |
