# IsoSurvivor simulation core in Dafny

This project models the simulation core of IsoSurvivor. IsoSurvivor is a small isometric survivor
game written in C# on MonoGame. The model leaves out screens, drawing and assets. It keeps:

- grid A* pathfinding over the solid-tile set;
- map decoding and the global solid-tile registry;
- the spatial hash grid used for enemy lookups;
- the isometric projection and the camera transform;
- the enemy, player, gem and weapon state machines;
- the gameplay tick's transition, trigger, spawning and sweep logic;
- the wave schedule;
- upgrade pool construction;
- the tile/trigger map editor;
- keyboard and mouse edge detection.

Each source file becomes one Dafny module. A source class whose fields its methods update becomes
a Dafny `class` with those fields. Its methods carry `modifies` frames and are proved against
specification functions. Pure computations become functions and lemmas.

The game keeps global registries in `GameEngine`: all sprites, enemies, bullets, items, the solid
tiles and the player. The model replaces them with an explicit `World` object (`engine.dfy`).
Object identity is a `SpriteRef` (a serial number and a runtime kind). A sprite's `IsRemoved` flag
is membership in `World.removed`.

World positions are `real` x/y with an integer level z. Grid cells are `Cell(x, y, z)` over `int`.
`MathF.Round` is rounding half to even. A C# `(int)` cast truncates toward zero, and so do C#
integer `/` and `%`. All three are written out in `numerics.dfy`.

Two behaviours of the code are worth stating because a reader might expect otherwise:

- An enemy takes the whole step or stays put: `EnemyBase.Update` tests only the cell of the full
  next position (IsometricGame/Classes/EnemyBase.cs:236-256). There is no wall sliding per axis.
- The isometric projection is two-dimensional: `IsoMath.WorldToScreen` and `ScreenToWorld`
  (IsometricGame/IsoMath.cs:8-22) use x and y only. The level z takes no part in it.

## Model

| member | source | states |
|---|---|---|
| IsoMath.ScreenToWorldInvertsProjection | IsometricGame/IsoMath.cs:8-22 | for non-zero tile sizes, unprojecting a projected world point gives the point back exactly |
| IsoMath.WorldToScreen | IsometricGame/IsoMath.cs:8-13 | the origin projects to the origin, the world diagonal x = y onto the screen's vertical axis, and with a positive tile height a point is below that axis exactly when x + y > 0 |
| IsoMath.ScreenToWorld | IsometricGame/IsoMath.cs:14-22 | the world point's x − y and x + y are the screen coordinates measured in half tiles |
| IsoMath.WorldToScreenInvertsUnprojection | IsometricGame/IsoMath.cs:8-22 | for non-zero tile sizes, projecting an unprojected screen point gives the screen point back exactly |
| IsoMath.WorldToScreenInjective | IsometricGame/IsoMath.cs:8-13 | two world points with the same screen position are equal |
| IsoMath.GetDepth | IsometricGame/IsoMath.cs:23-35 | the clamped depth key always lies in [0, 1] |
| IsoMath.DepthDependsOnSum | IsometricGame/IsoMath.cs:23-35 | the depth depends only on x + y |
| IsoMath.DepthNonIncreasing | IsometricGame/IsoMath.cs:23-35 | a larger x + y never gives a larger depth |
| IsoMath.DepthEnds | IsometricGame/IsoMath.cs:25-34 | the depth is 1 at the origin and 0 once x + y reaches WorldSize.X + WorldSize.Y |
| PathNodes.HCost | IsometricGame/Pathfinding/PathNode.cs:22-31 | the octile heuristic is non-negative and lies between 10 and 14 times the larger axis distance |
| PathNodes.HCostOctile | IsometricGame/Pathfinding/PathNode.cs:24-29 | H = 14·min(dx, dy) + 10·(max(dx, dy) − min(dx, dy)) on the absolute coordinate differences |
| PathNodes.HCostZeroIff | IsometricGame/Pathfinding/PathNode.cs:24-29 | H is 0 exactly when the X and Y cells coincide, whatever the levels |
| PathNodes.HCostSymmetric | IsometricGame/Pathfinding/PathNode.cs:24-29 | H does not change when node and target are swapped |
| Camera.ComposeApplies | IsometricGame/Camera.cs:33-34 | applying a product of affine maps is applying the factors one after the other |
| Camera.InvertInverts | IsometricGame/Camera.cs:48 | an affine map with non-zero scale and its inverse undo each other in both orders |
| Camera.ViewTransformMaps | IsometricGame/Camera.cs:33-34 | the view transform maps p to (p − Position)·Zoom + (viewportWidth / 2, viewportHeight / 2) with integer halves |
| Camera.ViewTransformInvertible | IsometricGame/Camera.cs:27-34 | with zoom at least 0.1 the view transform's scale is the zoom and non-zero |
| Camera.Camera.constructor | IsometricGame/Camera.cs:15-23 | a new camera has zoom 1, position at the origin, and its transform matches them |
| Camera.Camera.UpdateMatrix | IsometricGame/Camera.cs:31-35 | the transform becomes the view transform of the current position and zoom |
| Camera.Camera.SetZoom | IsometricGame/Camera.cs:25-29 | zoom becomes max(z, 0.1), so z itself when z ≥ 0.1; position is kept and the transform updated |
| Camera.Camera.Follow | IsometricGame/Camera.cs:37-41 | position moves 10% of the way to the target (the remaining gap is 0.9 of the old one); zoom is kept |
| Camera.Camera.ScreenToWorld | IsometricGame/Camera.cs:46-49 | the returned world point is mapped by the transform onto the given screen point |
| Camera.Camera.GetViewMatrix | IsometricGame/Camera.cs:42-45 | for a consistent camera the matrix is the view transform of its current position and zoom |
| Camera.ScreenToWorldRoundTrip | IsometricGame/Camera.cs:46-49 | unprojecting the transform of p gives p back |
| SpatialGrid.GetCell | IsometricGame/Classes/Physics/SpatialGrid.cs:53-59 | the bucket key is the floor of each coordinate over the cell size: x lies in [kx·s, (kx+1)·s) and likewise y |
| SpatialGrid.NearbyFloors | IsometricGame/Classes/Physics/SpatialGrid.cs:53-59 | two coordinates at most one cell size apart have bucket keys at most 1 apart |
| SpatialGrid.NeighborSquare | IsometricGame/Classes/Physics/SpatialGrid.cs:38-42 | the k-th visited bucket is within one step of the centre on both axes |
| SpatialGrid.NeighborSquareCovers | IsometricGame/Classes/Physics/SpatialGrid.cs:38-42 | every bucket within one step of the centre is visited by the nested loops |
| SpatialGrid.GatheredContains | IsometricGame/Classes/Physics/SpatialGrid.cs:38-48 | whatever is in a visited bucket is in the gathered list |
| SpatialGrid.GatheredEmpty | IsometricGame/Classes/Physics/SpatialGrid.cs:38-48 | when every bucket is empty the gathered list is empty |
| SpatialGrid.Grid.constructor | IsometricGame/Classes/Physics/SpatialGrid.cs:12-16 | a new grid has the given cell size and no buckets |
| SpatialGrid.Grid.Clear | IsometricGame/Classes/Physics/SpatialGrid.cs:17-23 | every bucket becomes empty and every bucket key is kept |
| SpatialGrid.Grid.Register | IsometricGame/Classes/Physics/SpatialGrid.cs:24-33 | the enemy is appended to exactly the bucket of its cell, created if absent; other buckets are unchanged |
| SpatialGrid.Grid.Retrieve | IsometricGame/Classes/Physics/SpatialGrid.cs:34-51 | the result is the concatenation of the 3×3 buckets around the query's cell, in loop order; the grid is not modified |
| SpatialGrid.NoFalseNegatives | IsometricGame/Classes/Physics/SpatialGrid.cs:37-48 | an enemy in the bucket of a point within one cell size of the query on both axes is in the query's result |
| SpatialGrid.RetrieveAfterClear | IsometricGame/Classes/Physics/SpatialGrid.cs:19-22 | after Clear every query returns an empty list |
| SpatialGrid.RegisteredIsFound | IsometricGame/Classes/Physics/SpatialGrid.cs:24-48 | an enemy just registered at (x, y) is found by every query within one cell size of (x, y) |
| Pathfinder.Neighbors | IsometricGame/Pathfinding/Pathfinder.cs:81-97 | GetNeighbors yields 8 cells at the current level |
| Pathfinder.NeighborsExact | IsometricGame/Pathfinding/Pathfinder.cs:86-94 | a cell is listed by GetNeighbors exactly when it is one of the 8 cells around the current one at the same level |
| Pathfinder.StepCost | IsometricGame/Pathfinding/Pathfinder.cs:99-103 | a step costs 14 exactly when both X and Y change, otherwise 10 |
| Pathfinder.WalkCost | IsometricGame/Pathfinding/Pathfinder.cs:61 | a walk of n steps costs at least 10·n |
| Pathfinder.HCostConsistent | IsometricGame/Pathfinding/PathNode.cs:22-30 | between adjacent cells the heuristic changes by at most that step's cost, in both directions |
| Pathfinder.HCostAdmissible | IsometricGame/Pathfinding/PathNode.cs:22-30 | the heuristic never exceeds the 10/14 cost of any 8-neighbour walk between the two cells |
| Pathfinder.SelectLowest | IsometricGame/Pathfinding/Pathfinder.cs:27-35 | the selected open node has minimal F, ties going to lower H, and full ties to the earliest in the list |
| Pathfinder.OpenHas | IsometricGame/Pathfinding/Pathfinder.cs:59 | the `Any` test is true exactly when the cell is on the open list |
| Pathfinder.ConsiderNeighbor | IsometricGame/Pathfinding/Pathfinder.cs:45-75 | one neighbour: a closed cell is skipped, a blocked cell or a cell under a solid one is closed, a new cell is opened as a child with G = parent's G + step; an already open or closed neighbour leaves the arena, the open list and the closed set exactly as they were, so it keeps its first parent and G; existing nodes are never changed and the open list only grows; afterwards the neighbour is closed or open and the search-tree invariant is kept |
| Pathfinder.ExpandNeighbors | IsometricGame/Pathfinding/Pathfinder.cs:45-75 | after the neighbour loop every neighbour of the expanded cell is closed or open, and the search-tree invariant is kept |
| Pathfinder.Search | IsometricGame/Pathfinding/Pathfinder.cs:22-78 | the while loop builds a tree of distinct cells with G = parent's G + step and H = heuristic; a reached node is the target; an exhausted open list means no walk reaches the target; start = target gives the start node at once |
| Pathfinder.ExhaustedIsUnreachable | IsometricGame/Pathfinding/Pathfinder.cs:25 | once every neighbour of every expanded cell is closed, no walk from the start reaches an unexpanded target |
| Pathfinder.WalkStaysInside | IsometricGame/Pathfinding/Pathfinder.cs:45-57 | in that situation every step of a passable walk from the start stays among the expanded cells |
| Pathfinder.Reversed | IsometricGame/Pathfinding/Pathfinder.cs:115 | reversal keeps the length |
| Pathfinder.ReversedSnoc | IsometricGame/Pathfinding/Pathfinder.cs:112-115 | reversing s + [x] puts x first |
| Pathfinder.PathToValid | IsometricGame/Pathfinding/Pathfinder.cs:105-116 | the parent chain of any node is a passable 8-neighbour walk from the start that ends on the node and never revisits the start |
| Pathfinder.ReconstructPath | IsometricGame/Pathfinding/Pathfinder.cs:105-116 | the loop collects the cells up the parent links and reverses them: start-exclusive, node-inclusive |
| Pathfinder.Snap | IsometricGame/Pathfinding/Pathfinder.cs:15-16 | X and Y are rounded (within 0.5) and Z is kept |
| Pathfinder.FindPath | IsometricGame/Pathfinding/Pathfinder.cs:13-79 | a path found excludes the start, ends on the target, steps between adjacent cells that are neither solid nor under a solid cell, and is empty exactly when start = target; `null` only when no walk reaches the target |
| MapLoader.Lookup | IsometricGame/Map/MapLoader.cs:58-71 | the id lookup finds an entry with that id, or none exactly when no entry has it |
| MapLoader.TileSprites | IsometricGame/Map/MapLoader.cs:108-111 | one tile sprite per decoded tile |
| MapLoader.TileSpritesNumbered | IsometricGame/Map/MapLoader.cs:108-111 | the k-th sprite of the load is the k-th one created |
| MapLoader.LoadMapData | IsometricGame/Map/MapLoader.cs:19-170 | unreadable data or duplicate mapping ids fail the load, a non-zero id in a map of width 0 raises the division by zero, and a success returns the decoded tiles, their sprites, the solid map built from them and the triggers (an empty list when missing) |
| MapLoader.DecodeLayers | IsometricGame/Map/MapLoader.cs:79-160 | the layer loop skips layers without data and decodes the others in order |
| MapLoader.NextLayer | IsometricGame/Map/MapLoader.cs:81-159 | one iteration of the layer loop extends the decoded tiles by that layer's tiles |
| MapLoader.MapTilesSkip | IsometricGame/Map/MapLoader.cs:83-87 | a layer without data adds no tiles |
| MapLoader.MapTilesStep | IsometricGame/Map/MapLoader.cs:81-159 | a layer with data adds its own tiles after those of the earlier layers |
| MapLoader.DecodeLayer | IsometricGame/Map/MapLoader.cs:90-158 | the index loop decodes a layer's entries in order, crashing exactly when the width is 0 and an entry is non-zero |
| MapLoader.LayerTilesNext | IsometricGame/Map/MapLoader.cs:92-93 | entry i adds at most one tile, and id 0 adds none |
| MapLoader.AddTile | IsometricGame/Map/MapLoader.cs:94-157 | a non-zero id adds a tile, a sprite and possibly a solid entry exactly when the id is mapped and its asset has a texture |
| MapLoader.NonZeroDividesByZero | IsometricGame/Map/MapLoader.cs:96-97 | a non-zero entry in a map of width 0 reaches the division by zero |
| MapLoader.IndexDecodes | IsometricGame/Map/MapLoader.cs:96-97 | for width > 0, index i decodes to x = i % Width in [0, Width) and y = i / Width ≥ 0, with y·Width + x = i |
| MapLoader.CellEncodes | IsometricGame/Map/MapLoader.cs:96-97 | the cell (x, y) of a row of width Width is decoded from index y·Width + x |
| MapLoader.LayerTilesWellDecoded | IsometricGame/Map/MapLoader.cs:90-145 | every tile of a layer has a non-zero mapped id, an asset with a texture and the solidity rule's verdict, and comes from some entry i of the layer's data: its id is that entry and its cell is (i % Width, i / Width, z) in C# division |
| MapLoader.MapTilesWellDecoded | IsometricGame/Map/MapLoader.cs:79-160 | every decoded tile is well decoded and lies at the level of a layer with data |
| MapLoader.LastSolidAt | IsometricGame/Map/MapLoader.cs:142-145 | the index of the last solid tile at a cell, or −1 when there is none |
| MapLoader.SolidMapLastWriter | IsometricGame/Map/MapLoader.cs:111-145 | a cell is in the loaded solid map exactly when some solid tile lies there, and it maps to the sprite of the last such tile (later layers overwrite earlier ones) |
| MapLoader.SolidTileRegistered | IsometricGame/Map/MapLoader.cs:142-145 | every solid tile's cell is in the solid map, which therefore has a sprite for every key |
| MapManager.RemoveFirst | IsometricGame/Map/MapManager.cs:73 | `List.Remove` takes one occurrence out of the list (the multiset loses one copy) and leaves a list without it unchanged |
| MapManager.RemoveEachMultiset | IsometricGame/Map/MapManager.cs:70-81 | removing a map's sprites one by one takes exactly their multiset out of the global list |
| MapManager.RemoveEachExactly | IsometricGame/Map/MapManager.cs:70-81 | on a list without repeats, what survives is exactly the sprites that were not the map's |
| MapManager.LoadThenUnload | IsometricGame/Map/MapManager.cs:41-81 | appending a map's sprites and then unloading them gives back the same multiset of sprites |
| MapManager.MapManager.constructor | IsometricGame/Map/MapManager.cs:18-23 | a new manager has no map name, no sprites and no loaded data |
| MapManager.MapManager.UnloadCurrentMap | IsometricGame/Map/MapManager.cs:58-96 | a no-op without a map name or without sprites; otherwise removes this map's sprites from the global list, clears the local list and the global solid set, and nulls the name and data |
| MapManager.MapManager.LoadMap | IsometricGame/Map/MapManager.cs:25-56 | always unloads first; a failed load returns false and leaves the name null; a success sets the name, appends the tile sprites to the global list and puts every loaded solid key into the global solid set |
| MapManager.MapManager.GetCurrentMapData | IsometricGame/Map/MapManager.cs:99-102 | data is returned exactly when a map name is set, with this map's sprites |
| MapManager.MapManager.GetCurrentTriggers | IsometricGame/Map/MapManager.cs:105-108 | the loaded map's triggers, or an empty list when no map is loaded |
| MapManager.RemoveSprites | IsometricGame/Map/MapManager.cs:70-81 | the removal loop leaves the global list without this map's sprites, one occurrence each |
| MapManager.CopySolidTiles | IsometricGame/Map/MapManager.cs:49-52 | every loaded solid key is written into the global solid set, later keys overwriting |
| Engine.Above | IsometricGame/Pathfinding/Pathfinder.cs:51 | the cell directly above keeps X and Y and has Z + 1 |
| Engine.Filter | IsometricGame/Classes/States/GameplayState.cs:490-495 | `RemoveAll` never lengthens a list |
| Engine.FilterMembers | IsometricGame/Classes/States/GameplayState.cs:490-495 | what `RemoveAll` keeps is exactly the elements the predicate does not remove |
| Engine.FilterAppend | IsometricGame/Classes/States/GameplayState.cs:124 | filtering a concatenation filters each part |
| Engine.World.constructor | IsometricGame/GameEngine.cs:22-32 | every registry starts empty and there is no player |
| Engine.World.Kill | IsometricGame/Classes/Sprite.cs:58 | `Kill` sets exactly that sprite's removed flag |
| Enemies.KindStats | IsometricGame/Classes/EnemyBase.cs:19-22 | each kind's constants (Enemy1, Bat, Golem over EnemyBase's) have positive life, weight and speed and a knockback resistance in [0, 1) |
| Enemies.SpriteTableEntries | IsometricGame/Classes/EnemyBase.cs:61-78 | a direction is in the loaded table exactly when some key with a texture is classified under it, and the stored texture is such a key |
| Enemies.Face | IsometricGame/Classes/EnemyBase.cs:86-89 | along the dominant axis a positive component faces south, otherwise west (X dominant) or north (Y dominant); never east |
| Enemies.DropLoot | IsometricGame/Classes/EnemyBase.cs:144-170 | a chest exactly when the chest chance is positive and the first roll is below it; otherwise a magnet exactly when the second roll is below 0.01; the health potion branch can never be taken |
| Enemies.Step | IsometricGame/Classes/EnemyBase.cs:239-256 | the whole step is taken exactly when its rounded cell is not solid (or the step is zero), otherwise the position is kept; no sliding along one axis, and a free position stays free |
| Enemies.KnockbackDecays | IsometricGame/Classes/EnemyBase.cs:234 | for 0 ≤ 5·dt ≤ 1 the lerp toward zero scales the knockback by 1 − 5·dt and never lengthens it |
| Enemies.Enemy.constructor | IsometricGame/Classes/EnemyBase.cs:32-54 | a new enemy has its kind's constants, the sprite table loaded from its keys, faces south, takes the south (or default) texture, and has no velocity, knockback or hit flash |
| Enemies.Enemy.LoadSprites | IsometricGame/Classes/EnemyBase.cs:61-78 | the loop stores every key with a texture under the first direction word it contains, a later key replacing an earlier one |
| Enemies.Enemy.UpdateSpriteDirection | IsometricGame/Classes/EnemyBase.cs:80-100 | with textures, a direction of squared length above 0.1 turns the enemy when it has more than one texture; the texture becomes the facing's, else the default one; without textures nothing changes |
| Enemies.Enemy.ApplyKnockback | IsometricGame/Classes/EnemyBase.cs:102-106 | the knockback grows by exactly force·(1 − KnockbackResistance) |
| Enemies.Enemy.Damage | IsometricGame/Classes/EnemyBase.cs:108-142 | Life drops by the amount and the hit is recorded; exactly when Life ≤ 0 a gem worth Weight is added to all sprites, loot is dropped by DropLoot's rule, and the enemy is killed |
| Enemies.Enemy.SeparationCount | IsometricGame/Classes/EnemyBase.cs:195-214 | the count never exceeds the number of enemies looked at |
| Enemies.Enemy.CountNeighbors | IsometricGame/Classes/EnemyBase.cs:192-214 | the separation loop counts exactly the other live enemies strictly within 0.8 and at non-zero distance |
| Enemies.Enemy.Move | IsometricGame/Classes/EnemyBase.cs:172-228 | without a live player, or with knockback² > 0.5, the velocity is zero and nothing else changes; otherwise the velocity is the steering direction times Speed and the sprite turns toward it |
| Enemies.Enemy.Update | IsometricGame/Classes/EnemyBase.cs:230-256 | Move, then the knockback decays by the lerp with factor 5·dt, then the whole step is taken only into a free cell; the hit flash ends after 100 ms |
| Enemies.IsCollidingAt | IsometricGame/Classes/EnemyBase.cs:252-256 | a colliding position has a solid tile on its own level at most half a cell away along x and along y (its half-to-even rounded cell) |
| Enemies.Enemy.Advance | IsometricGame/Classes/EnemyBase.cs:234-243 | knockback decay followed by the all-or-nothing step |
| Enemies.KnockbackAdditive | IsometricGame/Classes/EnemyBase.cs:102-106 | two pushes add up to the push of their sum |
| Enemies.KnockbackByKind | IsometricGame/Classes/EnemyBase.cs:102-106 | a Golem feels a quarter of every push; Enemy1 and Bat feel all of it |
| Players.TargetFacing | IsometricGame/Classes/Player.cs:76-77 | up faces west, else down south, else left west, else right south, else the facing is kept |
| Players.AxisSum | IsometricGame/Classes/Player.cs:89-93 | each axis is −1, 0 or +1, and 0 exactly when both or neither opposite key is held |
| Players.Normalized | IsometricGame/Classes/Player.cs:95-98 | an axis direction is kept, a diagonal is scaled by the single-precision 1/√2 |
| Players.Player.constructor | IsometricGame/Classes/Player.cs:27-39 | Life starts at MaxLife, the player faces south with the south texture and is not invincible |
| Players.Player.GetInput | IsometricGame/Classes/Player.cs:41-48 | the five flags are the key states of LEFT, RIGHT, UP, DOWN and FIRE |
| Players.Player.Animate | IsometricGame/Classes/Player.cs:74-80 | the facing becomes TargetFacing of the held keys and the texture follows it |
| Players.Player.KeyDirection | IsometricGame/Classes/Player.cs:89-93 | the accumulated direction is the per-axis sum of the key flags, so opposite keys cancel |
| Players.Player.Update | IsometricGame/Classes/Player.cs:81-106 | turns, is invincible exactly while now − lastHit < 1000 ms, moves by the normalised key direction times 4, and fires exactly when the fire key is held and more than 0.25 s have passed since the last shot |
| Players.Player.FireWhenReady | IsometricGame/Classes/Player.cs:102-105 | a shot happens exactly when the fire key is held and more than 0.25 s have passed |
| Players.Player.Walk | IsometricGame/Classes/Player.cs:95-100 | velocity is the normalised key direction times 4 and the position advances by velocity·dt |
| Players.Player.SteerByKeys | IsometricGame/Classes/Player.cs:89-99 | velocity is the normalised key direction times 4 |
| Players.Player.Fire | IsometricGame/Classes/Player.cs:50-72 | the shot time is recorded and one player bullet is added to the player-bullet and sprite lists, heading (0, 1) facing south and (−1, 0) facing west |
| Players.Player.TakeDamage | IsometricGame/Classes/Player.cs:108-122 | while invincible nothing changes; otherwise Life drops by exactly 1, the hit time is recorded, the player becomes invincible and is killed when Life ≤ 0 |
| Players.KeyDirectionUnit | IsometricGame/Classes/Player.cs:95-99 | a non-zero normalised key direction has squared length in (0.9999999, 1] |
| Players.FacingIgnoresCurrent | IsometricGame/Classes/Player.cs:76 | with any movement key held, the new facing does not depend on the old one |
| Gameplay.FirstActive | IsometricGame/Classes/States/GameplayState.cs:346-371 | the first trigger with a non-empty target, XY distance² ≤ radius² and \|Δz\| < 0.1, every earlier one failing; none only when no trigger fires |
| Gameplay.FindActiveTrigger | IsometricGame/Classes/States/GameplayState.cs:346-371 | the foreach loop finds exactly the first firing trigger |
| Gameplay.TriggerFires | IsometricGame/Classes/States/GameplayState.cs:348-364 | the body's tests pass exactly when the trigger fires |
| Gameplay.Sweep | IsometricGame/Classes/States/GameplayState.cs:490-495 | the sweep keeps exactly the sprites not removed, plus the spared player |
| Gameplay.FilterStep | IsometricGame/Classes/States/GameplayState.cs:394-404 | one backward step of the removal loop keeps or drops one sprite |
| Gameplay.DynamicStep | IsometricGame/Classes/States/GameplayState.cs:394-404 | one backward step kills the sprite when it is an enemy or a bullet |
| Gameplay.NewRefs | IsometricGame/Classes/States/GameplayState.cs:158-169 | n spawns create n new sprites |
| Gameplay.NewRefsIds | IsometricGame/Classes/States/GameplayState.cs:158-169 | the k-th spawned enemy is the k-th sprite created |
| Gameplay.FirstAccepted | IsometricGame/Classes/States/GameplayState.cs:137-152 | the first drawn cell more than 5 from the player with neither it nor the cell above solid, every earlier draw rejected; none only when all 50 draws are rejected |
| Gameplay.SpawnAccepted | IsometricGame/Classes/States/GameplayState.cs:144-146 | an accepted cell is never the player's own position, and neither it nor the cell above it is solid |
| Gameplay.Spawns | IsometricGame/Classes/States/GameplayState.cs:131-155 | at most one enemy per slot |
| Gameplay.SpawnsAccepted | IsometricGame/Classes/States/GameplayState.cs:137-150 | every spawn cell passes the acceptance rule |
| Gameplay.FindSpawn | IsometricGame/Classes/States/GameplayState.cs:134-152 | the attempts loop picks exactly the first accepted cell, or none |
| Gameplay.GameplayState.constructor | IsometricGame/Classes/States/GameplayState.cs:42-47 | a new gameplay state has a fresh map manager, no transition and a clear screen |
| Gameplay.GameplayState.InitiateMapTransition | IsometricGame/Classes/States/GameplayState.cs:375-384 | a no-op while a transition runs; otherwise stores the trigger, sets transitioning and enters FadingOut from alpha max(0, alpha) = 0 |
| Gameplay.GameplayState.CheckForMapTransition | IsometricGame/Classes/States/GameplayState.cs:336-372 | nothing happens during a transition, without a live player or when no trigger fires; otherwise the first firing trigger starts a transition and later ones are ignored |
| Gameplay.GameplayState.UpdateTransition | IsometricGame/Classes/States/GameplayState.cs:256-332 | Idle does nothing; FadingIn lowers alpha and, on reaching 0, clamps it and ends the transition; FadingOut raises alpha by 1.5·dt and, on reaching 1, clamps it and swaps the map once: success enters FadingIn with no pending trigger, failure goes Idle, alpha 0, not transitioning, next screen Menu |
| Gameplay.GameplayState.SwapMap | IsometricGame/Classes/States/GameplayState.cs:268-316 | enemies and bullets are cleared and the target map loaded; on success a live player is moved to the target and stopped and is in the sprite list, and the fade-in starts with no pending trigger; on failure the game returns to the menu |
| Gameplay.GameplayState.EnterMap | IsometricGame/Classes/States/GameplayState.cs:277-315 | a live player is placed at the target, stopped and kept in the sprite list; enemies are spawned; the fade-in starts |
| Gameplay.GameplayState.ReturnToMenu | IsometricGame/Classes/States/GameplayState.cs:300-311 | a failed load resets to Idle, not transitioning, alpha 0, done, next screen Menu |
| Gameplay.GameplayState.SpawnEnemies | IsometricGame/Classes/States/GameplayState.cs:120-156 | leftover enemies leave both lists, then the new enemies are exactly the accepted spawns, in order, added to both lists |
| Gameplay.SpawnAll | IsometricGame/Classes/States/GameplayState.cs:131-155 | the slot loop spawns exactly Spawns of the draws and adds each new enemy to both lists |
| Gameplay.SpawnOne | IsometricGame/Classes/States/GameplayState.cs:133-153 | one slot adds its chosen spawn, if any |
| Gameplay.SpawnsNext | IsometricGame/Classes/States/GameplayState.cs:131-155 | the spawns of one more slot are the earlier spawns followed by that slot's choice |
| Gameplay.SpawnEnemy | IsometricGame/Classes/States/GameplayState.cs:158-169 | a new Enemy1 is appended to the enemy list and the sprite list |
| Gameplay.PlacePlayer | IsometricGame/Classes/States/GameplayState.cs:277-295 | a live player is moved to the target's X and Y, stopped, and added to the sprite list only when missing; otherwise nothing changes |
| Gameplay.ClearDynamicEntities | IsometricGame/Classes/States/GameplayState.cs:387-412 | exactly the enemies and bullets leave the sprite list and are killed, in order otherwise, and the enemy and both bullet lists become empty |
| Gameplay.RemoveIfDynamic | IsometricGame/Classes/States/GameplayState.cs:396-403 | one iteration of the backward loop |
| Gameplay.RemoveAtStep | IsometricGame/Classes/States/GameplayState.cs:400 | `RemoveAt(i)` at the loop's index drops exactly the current sprite |
| Gameplay.CleanupSprites | IsometricGame/Classes/States/GameplayState.cs:487-504 | every removed sprite except the player leaves the sprite list, removed entries leave the per-kind lists, and Player becomes null exactly when it was removed |
| Gameplay.SweepLeavesNoRemoved | IsometricGame/Classes/States/GameplayState.cs:490 | after the sweep the only removed sprite left can be the player |
| Waves.FirstMatching | IsometricGame/Classes/WaveManager.cs:67-77 | the index found is the first wave whose `[start, end)` window holds the time; no wave holds it when the search fails |
| Waves.CurrentWave | IsometricGame/Classes/WaveManager.cs:67-77 | a wave is chosen exactly when the schedule is non-empty, and it is one of the schedule's waves (the last one when no window matches) |
| Waves.SpawnOutcome | IsometricGame/Classes/WaveManager.cs:88-114 | nothing spawns exactly when the type list is empty or the rounded cell at z 0 is solid; otherwise the enemy has one of the wave's types and stands on that free cell |
| Waves.WaveManager.constructor | IsometricGame/Classes/WaveManager.cs:21-59 | both timers start at 0 and the waves are the fixed schedule |
| Waves.WaveManager.Update | IsometricGame/Classes/WaveManager.cs:61-86 | the game timer advances by dt; the spawn timer is reset to the current wave's rate exactly when it ran out, and then the spawn outcome's enemy (if any) is appended to the enemy and sprite lists with a fresh identity |
| Waves.WaveManager.SelectWave | IsometricGame/Classes/WaveManager.cs:67-77 | the loop's choice is the current wave |
| Waves.SpawnRandomEnemy | IsometricGame/Classes/WaveManager.cs:88-114 | the result is the spawn outcome, and exactly its enemy is added to both lists |
| Waves.ScheduleShape | IsometricGame/Classes/WaveManager.cs:26-59 | the schedule's windows are contiguous from 0 to 9999, its spawn rates are positive and strictly decreasing, and every wave has enemy types |
| Waves.EndsBeforeStart | IsometricGame/Classes/WaveManager.cs:26-59 | in a contiguous schedule an earlier wave ends no later than a later one starts |
| Waves.WaveAt | IsometricGame/Classes/WaveManager.cs:67-77 | in a contiguous schedule the wave whose window holds the time is the current wave |
| Waves.WaveOutside | IsometricGame/Classes/WaveManager.cs:76-77 | before the first window or past the last one, the last wave is used |
| Waves.ScheduleAlwaysSpawns | IsometricGame/Classes/WaveManager.cs:81-112 | with the fixed schedule there is a wave at every time, and an enemy spawns whenever the drawn cell is free |
| Passives.NextLevel | IsometricGame/Classes/Items/PassiveItem.cs:25-32 | the level grows by one exactly when it is below the maximum, and never passes the maximum |
| Passives.LevelAfterBound | IsometricGame/Classes/Items/PassiveItem.cs:13-32 | from level 0, n level-ups give level min(n, max) (never negative) |
| Passives.PassiveItem.constructor | IsometricGame/Classes/Items/PassiveItem.cs:11-23 | type, name and maximum as given, level 0, no callback run yet |
| Passives.PassiveItem.LevelUp | IsometricGame/Classes/Items/PassiveItem.cs:25-32 | the new level is the next level, and the level-up callback runs once exactly when the item was below its maximum |
| Gems.TextureName | IsometricGame/Classes/ExperienceGem.cs:19-27 | "gem_50" exactly for values of at least 20, "gem_10" exactly for 5 to 19, "gem_1" exactly below 5 |
| Gems.Gain | IsometricGame/Classes/ExperienceGem.cs:66 | the speed gain of one frame is never negative for a non-negative dt |
| Gems.NextSpeed | IsometricGame/Classes/ExperienceGem.cs:66-67 | the magnet speed never exceeds 600, never decreases, and is either capped or grown by the frame's gain |
| Gems.TotalGainIsProduct | IsometricGame/Classes/ExperienceGem.cs:66 | n frames of the same dt add n times one frame's gain |
| Gems.SpeedAfterClosedForm | IsometricGame/Classes/ExperienceGem.cs:66-67 | after n frames the speed is min(start + total gain, 600) |
| Gems.CapThenAdd | IsometricGame/Classes/ExperienceGem.cs:66-67 | capping each frame is the same as capping once at the end |
| Gems.PullDirection | IsometricGame/Classes/ExperienceGem.cs:69-74 | a gem standing on the player's x/y is not pulled in any direction |
| Gems.Pulled | IsometricGame/Classes/ExperienceGem.cs:76 | the pull keeps the height and does nothing along a zero direction |
| Gems.ExperienceGem.constructor | IsometricGame/Classes/ExperienceGem.cs:15-27 | value, position and texture tier as given, at rest and not magnetized |
| Gems.ExperienceGem.ForceMagnetize | IsometricGame/Classes/ExperienceGem.cs:40-43 | the gem is magnetized with speed 100 |
| Gems.ExperienceGem.Update | IsometricGame/Classes/ExperienceGem.cs:45-90 | with no live player only the base step happens; otherwise a gem within range or already magnetized stays magnetized, accelerates, moves towards the player, and within 0.5 hands over its value and is killed |
| Orbiting.HitCheck | IsometricGame/Classes/Weapons/Projectiles/OrbitingProjectile.cs:48-64 | a hit is allowed exactly for an unseen enemy or once its next-hit time has come, and then that enemy's next hit is 0.5 s later; a refused hit changes nothing |
| Orbiting.HitSpacing | IsometricGame/Classes/Weapons/Projectiles/OrbitingProjectile.cs:48-64 | after a hit, the same enemy is refused exactly until 0.5 s have passed |
| Orbiting.HitCheckLocal | IsometricGame/Classes/Weapons/Projectiles/OrbitingProjectile.cs:48-64 | checking one enemy leaves every other enemy's entry as it was |
| Orbiting.WithoutRemoved | IsometricGame/Classes/Weapons/Projectiles/OrbitingProjectile.cs:66-74 | the table keeps exactly the entries of enemies not removed, with their times |
| Orbiting.OrbitPosition | IsometricGame/Classes/Weapons/Projectiles/OrbitingProjectile.cs:37-43 | the projectile sits at the owner's height, offset by the direction scaled by 3 times the range modifier |
| Orbiting.OrbitRadius | IsometricGame/Classes/Weapons/Projectiles/OrbitingProjectile.cs:37-43 | for a unit direction the planar distance to the owner is the orbit radius |
| Orbiting.OrbitingProjectile.constructor | IsometricGame/Classes/Weapons/Projectiles/OrbitingProjectile.cs:18-27 | starts on the owner with the given angle, damage and duration, knockback 1 and no hit history |
| Orbiting.OrbitingProjectile.Update | IsometricGame/Classes/Weapons/Projectiles/OrbitingProjectile.cs:29-46 | the duration shrinks by dt; when it ran out or the owner is removed the projectile is killed and nothing else changes, otherwise the angle advances, the position is the orbit position and removed enemies leave the hit table |
| Orbiting.OrbitingProjectile.CanHit | IsometricGame/Classes/Weapons/Projectiles/OrbitingProjectile.cs:48-64 | answer and new hit table are the hit check's |
| Orbiting.OrbitingProjectile.CleanupCooldowns | IsometricGame/Classes/Weapons/Projectiles/OrbitingProjectile.cs:66-74 | the hit table loses exactly the removed enemies |
| Weapons.WandStep | IsometricGame/Classes/Weapons/SimpleWeapon.cs:17-31 | the wand tables grow as the level-up does: a bonus projectile on even levels, 3 damage on odd ones, 0.1 s less cooldown (not below 0.2) every third level |
| Weapons.WandCooldownBounds | IsometricGame/Classes/Weapons/SimpleWeapon.cs:26-30 | from level 3 on the wand cooldown lies between 0.2 and its starting value |
| Weapons.ScanNearest | IsometricGame/Classes/Weapons/SimpleWeapon.cs:39-51 | the scan returns its current best or an index into the enemy list |
| Weapons.Nearest | IsometricGame/Classes/Weapons/SimpleWeapon.cs:35-51 | the nearest target, when there is one, is an index into the enemy list |
| Weapons.ScanCorrect | IsometricGame/Classes/Weapons/SimpleWeapon.cs:39-51 | continuing the scan from a correct partial state finds the nearest live enemy strictly inside the range, the first one among equals |
| Weapons.NearestIsNearest | IsometricGame/Classes/Weapons/SimpleWeapon.cs:35-51 | the result is none exactly when no live enemy is in range, and otherwise the first live in-range enemy whose squared distance is least |
| Weapons.FindNearest | IsometricGame/Classes/Weapons/SimpleWeapon.cs:35-51 | the loop finds the nearest target |
| Weapons.WandShot | IsometricGame/Classes/Weapons/SimpleWeapon.cs:68-82 | damage is at least 1 and otherwise the half-even rounding of base damage times the modifier; the count is the owner's projectiles plus the bonus; the pattern is multishot exactly when the count exceeds 1 |
| Weapons.Ring | IsometricGame/Classes/Weapons/OrbitingShield.cs:26-45 | the ring has as many projectiles as the count (none for a non-positive count) |
| Weapons.RingSpacing | IsometricGame/Classes/Weapons/OrbitingShield.cs:31-33 | every angle lies in [0, 2π) and neighbours are 2π/count apart |
| Weapons.RingSprites | IsometricGame/Classes/Weapons/OrbitingShield.cs:41 | one sprite per projectile of the ring |
| Weapons.Weapon.constructor | IsometricGame/Classes/Weapons/SimpleWeapon.cs:11-15 | level 1, name, cooldown and damage of the kind (Magic Wand 1.0/2, Holy Wand 0.1/1, Orbiting Shield 5.0/3), no bonuses and a 3 s shield duration |
| Weapons.StartName | IsometricGame/Classes/Weapons/MachineGunWand.cs:7-11 | each weapon's constructed name; exactly the Holy Wand's begins with "Holy" |
| Weapons.StartCooldown | IsometricGame/Classes/Weapons/OrbitingShield.cs:12-17 | every weapon starts with a positive cooldown, the Holy Wand's below one second |
| Weapons.StartDamage | IsometricGame/Classes/Weapons/SimpleWeapon.cs:11-15 | every weapon starts with a base damage of at least 1 |
| Weapons.Weapon.LevelUp | IsometricGame/Classes/Weapons/SimpleWeapon.cs:17-31 | the level grows by one; a wand gains a projectile on even levels or 3 damage on odd ones and loses 0.1 s of cooldown (floored at 0.2) every third level; a shield gains one projectile and 0.5 s of duration |
| Weapons.Weapon.Update | IsometricGame/Classes/Weapons/WeaponBase.cs:21-31 | the cooldown runs down by dt; only when it reached 0 is an attack attempted, and only a successful attack resets it to the base cooldown; the sprites it adds get fresh identities |
| Weapons.Weapon.TryAttack | IsometricGame/Classes/Weapons/SimpleWeapon.cs:33-66 | the attack is the kind's plan, and exactly its new sprites are added |
| Weapons.Weapon.ShieldAttack | IsometricGame/Classes/Weapons/OrbitingShield.cs:26-45 | a shield always attacks, launching the ring of count = owner projectiles + bonus with truncated damage |
| Weapons.Weapon.WandAttack | IsometricGame/Classes/Weapons/SimpleWeapon.cs:33-66 | a wand fires exactly when there is a live enemy in range, along the normalised offset to the nearest one (AimDirection), and otherwise does not attack |
| Weapons.AimDirection | IsometricGame/Classes/Weapons/SimpleWeapon.cs:55-59 | the aim is the normalised offset from the owner to the enemy; an enemy on the owner's own spot gives the zero direction, which is not normalised |
| Weapons.LaunchRing | IsometricGame/Classes/Weapons/OrbitingShield.cs:31-42 | the loop builds the ring and adds its sprites in order |
| Upgrades.WeaponUpgradeDescription | IsometricGame/Classes/Upgrades/UpgradeManager.cs:92-107 | the text starts with the next level's "Lvl n: " prefix |
| Upgrades.PassiveDescription | IsometricGame/Classes/Upgrades/UpgradeManager.cs:131-147 | the text starts with the given level's prefix |
| Upgrades.FirstOfType | IsometricGame/Classes/Upgrades/UpgradeManager.cs:61 | `Find` returns the first owned passive of that type, or none when there is none |
| Upgrades.TakeCount | IsometricGame/Classes/Upgrades/UpgradeManager.cs:89 | `Take(count)` keeps min(count, size) options and none for a non-positive count |
| Upgrades.Shuffled | IsometricGame/Classes/Upgrades/UpgradeManager.cs:89 | the result is the first options of the pool in shuffled order |
| Upgrades.GetSmartOptions | IsometricGame/Classes/Upgrades/UpgradeManager.cs:28-90 | the options are the shuffled prefix of the pool |
| Upgrades.CollectWeaponUpgrades | IsometricGame/Classes/Upgrades/UpgradeManager.cs:31-42 | one upgrade option per weapon below level 8 whose name has no "Holy", in order |
| Upgrades.CollectNewWeapons | IsometricGame/Classes/Upgrades/UpgradeManager.cs:44-57 | one new-weapon option per available class the player does not own |
| Upgrades.NewWeaponName | IsometricGame/Classes/Upgrades/UpgradeManager.cs:48 | a new-weapon option is titled with the name the offered weapon is constructed with |
| Upgrades.NewWeaponDescription | IsometricGame/Classes/Upgrades/UpgradeManager.cs:109-117 | the generic "A new weapon." text is given exactly to a class outside the available weapons |
| Upgrades.PassiveName | IsometricGame/Classes/Upgrades/UpgradeManager.cs:119-129 | every passive type has a non-empty, capitalised display name |
| Upgrades.CollectPassives | IsometricGame/Classes/Upgrades/UpgradeManager.cs:59-83 | the passive options of all four types, in order |
| Upgrades.OfferPassive | IsometricGame/Classes/Upgrades/UpgradeManager.cs:61-82 | at most one option per passive type |
| Upgrades.CountAppend | IsometricGame/Classes/Upgrades/UpgradeManager.cs:30-88 | option counts add over concatenation |
| Upgrades.CountSingle | IsometricGame/Classes/Upgrades/UpgradeManager.cs:30-88 | appending one option counts it once when it has that effect |
| Upgrades.CountTwo | IsometricGame/Classes/Upgrades/UpgradeManager.cs:89 | two options with the same effect count at least twice |
| Upgrades.CountPositive | IsometricGame/Classes/Upgrades/UpgradeManager.cs:89 | an option that is present counts at least once |
| Upgrades.WeaponUpgradesCount | IsometricGame/Classes/Upgrades/UpgradeManager.cs:31-42 | each effect appears in the weapon upgrades exactly as often as the owned weapon it levels is upgradable |
| Upgrades.NewWeaponsCount | IsometricGame/Classes/Upgrades/UpgradeManager.cs:44-57 | each new-weapon effect appears once exactly for an available class not owned |
| Upgrades.WeaponSlotStep | IsometricGame/Classes/Upgrades/UpgradeManager.cs:44-57 | one step of the new-weapon count |
| Upgrades.NewWeaponsStep | IsometricGame/Classes/Upgrades/UpgradeManager.cs:44-57 | one iteration of the new-weapon loop adds its count |
| Upgrades.PassiveOptionsCount | IsometricGame/Classes/Upgrades/UpgradeManager.cs:59-83 | each passive effect appears once exactly when that type is offered |
| Upgrades.PassiveSlotStep | IsometricGame/Classes/Upgrades/UpgradeManager.cs:59-83 | one step of the passive count |
| Upgrades.PassiveOptionsStep | IsometricGame/Classes/Upgrades/UpgradeManager.cs:59-83 | one iteration of the passive loop adds its count |
| Upgrades.PoolCount | IsometricGame/Classes/Upgrades/UpgradeManager.cs:28-88 | the pool's count of an effect is the sum of the four groups' counts |
| Upgrades.CountFillers | IsometricGame/Classes/Upgrades/UpgradeManager.cs:84-88 | the two fillers add one heal and one no-effect option |
| Upgrades.PoolWeaponUpgrade | IsometricGame/Classes/Upgrades/UpgradeManager.cs:31-42 | weapon i is offered one upgrade exactly when it is below level 8 and not "Holy" |
| Upgrades.PoolNewWeapon | IsometricGame/Classes/Upgrades/UpgradeManager.cs:43-58 | a class is offered as new exactly when it is available, not owned and fewer than 4 weapons are held |
| Upgrades.AvailableWeaponSlot | IsometricGame/Classes/Upgrades/UpgradeManager.cs:12-16 | the Magic Wand and the Orbiting Shield are the available classes, the Holy Wand is not |
| Upgrades.PoolPassive | IsometricGame/Classes/Upgrades/UpgradeManager.cs:59-83 | a passive type is offered exactly when it is not owned and fewer than 4 passives are held, or owned below its maximum level |
| Upgrades.PoolOffer | IsometricGame/Classes/Upgrades/UpgradeManager.cs:59-83 | the pool offers a passive type exactly once when its offer is non-empty |
| Upgrades.OfferCondition | IsometricGame/Classes/Upgrades/UpgradeManager.cs:61-82 | the offer is non-empty exactly under the get-or-upgrade condition |
| Upgrades.PoolFillers | IsometricGame/Classes/Upgrades/UpgradeManager.cs:84-88 | Roast Chicken and Gold Coin are added, once each, exactly when the pool is smaller than the count |
| Upgrades.PoolAtMostOnce | IsometricGame/Classes/Upgrades/UpgradeManager.cs:28-88 | no effect appears twice in the pool |
| Upgrades.ShuffledSelection | IsometricGame/Classes/Upgrades/UpgradeManager.cs:89 | the player is offered min(count, pool size) options (none for a non-positive count), all from the pool and no two with the same effect |
| Upgrades.HolyWandNotUpgradable | IsometricGame/Classes/Upgrades/UpgradeManager.cs:33 | the Holy Wand is never offered an upgrade |
| Input.PressedIsDown | IsometricGame/InputManager.cs:152-194 | an action pressed this frame is also down this frame |
| Input.HeldIsNotPressed | IsometricGame/InputManager.cs:175-194 | when the keyboard snapshot did not change, no action counts as pressed |
| Input.InternalPosition | IsometricGame/InputManager.cs:103-125 | with a non-empty render rectangle and internal size the mouse lands inside the internal resolution; otherwise it is the raw mouse position |
| Input.Scale | IsometricGame/InputManager.cs:115-116 | a point of [0, size] is taken into [0, target] |
| Input.CornersMap | IsometricGame/InputManager.cs:103-120 | the rectangle's top-left and bottom-right corners map to (0, 0) and to the internal resolution |
| Input.ScrollDeltasTelescope | IsometricGame/InputManager.cs:99-100 | the wheel deltas reported over successive frames add up to the wheel's total movement |
| Input.InputManager.constructor | IsometricGame/InputManager.cs:16-26 | empty keyboard snapshots, a zero mouse, an empty render rectangle and no scroll |
| Input.InputManager.SetScreenConversion | IsometricGame/InputManager.cs:78-82 | the render rectangle and internal resolution are the given ones |
| Input.InputManager.Update | IsometricGame/InputManager.cs:88-125 | the old snapshots become the previous ones, the new ones are current, the scroll delta is the change since the last wheel value, and the internal mouse position is recomputed |
| Input.InputManager.IsKeyDown | IsometricGame/InputManager.cs:152-167 | true exactly when the action is known and one of its keys is down |
| Input.InputManager.IsKeyPressed | IsometricGame/InputManager.cs:175-194 | true exactly when the action is known and one of its keys is down now and was up before |
| Input.InputManager.IsLeftMouseButtonDown | IsometricGame/InputManager.cs:199-202 | the current left button |
| Input.InputManager.IsRightMouseButtonDown | IsometricGame/InputManager.cs:207-210 | the current right button |
| Input.InputManager.IsLeftMouseButtonPressed | IsometricGame/InputManager.cs:215-219 | true exactly when the left button is down now and was up before |
| Input.InputManager.IsRightMouseButtonPressed | IsometricGame/InputManager.cs:224-228 | true exactly when the right button is down now and was up before |
| Editor.Switched | IsometricGame/Classes/States/Editor/EditorState.cs:192 | switching always changes the mode |
| Editor.NextIndex | IsometricGame/Classes/States/Editor/EditorState.cs:200 | the next palette index stays in range and wraps from the last entry to the first |
| Editor.PrevIndex | IsometricGame/Classes/States/Editor/EditorState.cs:207 | the previous palette index stays in range and wraps from the first entry to the last |
| Editor.NextPrevInverse | IsometricGame/Classes/States/Editor/EditorState.cs:197-210 | next and previous undo each other |
| Editor.NextIterated | IsometricGame/Classes/States/Editor/EditorState.cs:197-203 | k steps forward stay in range |
| Editor.CycleSteps | IsometricGame/Classes/States/Editor/EditorState.cs:197-203 | k steps forward land on (i + k) mod n, so a full round returns to the start |
| Editor.IndexOfId | IsometricGame/Classes/States/Editor/EditorState.cs:239-241 | the first palette entry with the id, or -1 exactly when no entry has it |
| Editor.IndexOfOwnId | IsometricGame/Classes/States/Editor/EditorState.cs:239-241 | looking up an entry's own id finds it or an earlier duplicate, and exactly it when ids are distinct |
| Editor.LayerIndex | IsometricGame/Classes/States/Editor/EditorState.cs:267 | the first layer with the Z level, or -1 exactly when no layer has it |
| Editor.InsertByZ | IsometricGame/Classes/States/Editor/EditorState.cs:268 | adding a layer and sorting by Z yields one more layer, the old ones plus the new one |
| Editor.InsertPermutes | IsometricGame/Classes/States/Editor/EditorState.cs:268 | the sorted insertion is a permutation of the old layers plus the new one |
| Editor.InsertKeepsSorted | IsometricGame/Classes/States/Editor/EditorState.cs:268 | inserting a layer of a new Z level keeps the layers strictly ordered by Z |
| Editor.InsertedFound | IsometricGame/Classes/States/Editor/EditorState.cs:267-268 | after the insertion the lookup by Z finds the new layer |
| Editor.Zeros | IsometricGame/Classes/States/Editor/EditorState.cs:248 | `Enumerable.Repeat(0, n)`: n zeros |
| Editor.Repaired | IsometricGame/Classes/States/Editor/EditorState.cs:269 | layer data of the expected size is kept, any other (or missing) data is replaced by zeros of that size |
| Editor.CellIndexBound | IsometricGame/Classes/States/Editor/EditorState.cs:265-270 | a cell inside the map has an index inside the layer data, so the index check never rejects it |
| Editor.CellRoundTrip | IsometricGame/Classes/States/Editor/EditorState.cs:270 | `y * width + x` decodes back to x and y |
| Editor.CellIndexInjective | IsometricGame/Classes/States/Editor/EditorState.cs:270 | distinct cells have distinct indices |
| Editor.WithLayer | IsometricGame/Classes/States/Editor/EditorState.cs:267-268 | the result has a layer of the Z level: the old layers when one existed, otherwise the old ones with a new zero layer inserted in Z order; Z order is kept |
| Editor.UpdateKeepsZ | IsometricGame/Classes/States/Editor/EditorState.cs:269-271 | replacing one layer's data changes no Z lookup and keeps Z order |
| Editor.PlaceKeepsSorted | IsometricGame/Classes/States/Editor/EditorState.cs:262-272 | placing a tile keeps the layers in Z order |
| Editor.NewLayer | IsometricGame/Classes/States/Editor/EditorState.cs:268 | the created layer sits at Z level z, is named "Layer (Z=…" and holds Width·Height empty cells |
| Editor.PlaceInLayers | IsometricGame/Classes/States/Editor/EditorState.cs:262-272 | a layer is added only when a non-zero tile goes to a missing Z level; after placing a non-zero tile, or on an existing level, the level has a layer |
| Editor.PlaceWritesCell | IsometricGame/Classes/States/Editor/EditorState.cs:262-272 | erasing on a missing layer changes nothing; otherwise the layer of that Z holds full-size data with the id at the cell and every other cell as before (zero for new or repaired data) |
| Editor.PlaceKeepsOtherLayers | IsometricGame/Classes/States/Editor/EditorState.cs:262-272 | layers of other Z levels are untouched |
| Editor.PlaceIdempotent | IsometricGame/Classes/States/Editor/EditorState.cs:271 | placing the same tile twice is the same as placing it once |
| Editor.PlaceCell | IsometricGame/Classes/States/Editor/EditorState.cs:266-271 | the step-by-step placement yields the layers PlaceInLayers describes |
| Editor.Trigger.constructor | IsometricGame/Classes/States/Editor/EditorState.cs:290-297 | a trigger object holding the given data |
| Editor.NewTrigger | IsometricGame/Classes/States/Editor/EditorState.cs:290-297 | a "Trigger_" id at the given position, aimed at "changeme.json" and the origin, with radius 0.5 |
| Editor.TriggerIndex | IsometricGame/Classes/States/Editor/EditorState.cs:306 | the first position of that trigger object, or -1 exactly when it is not in the list |
| Editor.NearestIn | IsometricGame/Classes/States/Editor/EditorState.cs:277-278 | the chosen trigger is on the click's level within 0.3, no farther than any earlier and nearer than any later one on that level (the last of the closest wins); none is chosen exactly when every trigger on the level is farther than 0.3 |
| Editor.NearestTrigger | IsometricGame/Classes/States/Editor/EditorState.cs:277-278 | the loop's choice is the nearest trigger |
| Editor.EditorState.constructor | IsometricGame/Classes/States/Editor/EditorState.cs:35-52 | no map, "new_map.json", tile mode, Z level 0, empty palette and no selection |
| Editor.EditorState.SwitchEditorMode | IsometricGame/Classes/States/Editor/EditorState.cs:192 | the mode flips and the trigger selection is cleared |
| Editor.EditorState.SetCurrentZLevel | IsometricGame/Classes/States/Editor/EditorState.cs:193 | a level in 0..MaxZLevel is taken and clears the trigger selection; any other level changes nothing |
| Editor.EditorState.InitializePalette | IsometricGame/Classes/States/Editor/EditorState.cs:225-233 | the palette is the sample map's tiles, or the default grass tile when there are none; the first entry is selected |
| Editor.EditorState.UpdateSelectedTileInfo | IsometricGame/Classes/States/Editor/EditorState.cs:236-242 | with an empty palette nothing is selected; otherwise a selected id missing from the palette falls back to the first entry, and index and info follow the selected id |
| Editor.EditorState.SelectNextTileInPalette | IsometricGame/Classes/States/Editor/EditorState.cs:197-203 | the palette entry after the current one (wrapping) becomes selected, with index and info consistent |
| Editor.EditorState.SelectPreviousTileInPalette | IsometricGame/Classes/States/Editor/EditorState.cs:204-210 | the palette entry before the current one (wrapping) becomes selected, with index and info consistent |
| Editor.EditorState.CreateNewMap | IsometricGame/Classes/States/Editor/EditorState.cs:245-250 | a 30 by 30 map with the palette as its tiles, one zero ground layer at Z 0, no triggers and no selection |
| Editor.EditorState.RequestNewMap | IsometricGame/Classes/States/Editor/EditorState.cs:191 | the file name gets the time stamp and a new map is created |
| Editor.EditorState.PlaceTile | IsometricGame/Classes/States/Editor/EditorState.cs:262-272 | outside the map or the Z range nothing changes; inside, the truncated cell is a valid cell and the layers are those of the placement |
| Editor.EditorState.AddTriggerAt | IsometricGame/Classes/States/Editor/EditorState.cs:283-301 | on the map a fresh trigger numbered after the existing ones is appended and selected, the old ones kept in order; off the map nothing changes |
| Editor.EditorState.RemoveTrigger | IsometricGame/Classes/States/Editor/EditorState.cs:304-307 | the first occurrence of the trigger is removed (nothing when absent) and the selection is cleared when it was that trigger |
| Editor.EditorState.RemoveSelectedTrigger | IsometricGame/Classes/States/Editor/EditorState.cs:217 | with no selection nothing changes; otherwise the selected trigger leaves the list, which shrinks by one, and nothing is selected |
| Editor.EditorState.SelectTriggerNear | IsometricGame/Classes/States/Editor/EditorState.cs:275-280 | on a loaded map the selection becomes the nearest trigger within reach, or nothing |
| Editor.Without | IsometricGame/Classes/States/Editor/EditorState.cs:306 | the list without the entry at k, the rest in order |
| Editor.RemoveOnce | IsometricGame/Classes/States/Editor/EditorState.cs:306 | in a list without duplicates, removing one trigger drops exactly it and keeps the others distinct |
| Numerics.RoundHalfEven | IsometricGame/Classes/WaveManager.cs:98-99 | `MathF.Round` lands within one half of its argument and breaks ties to the even integer |
| Numerics.Truncate | IsometricGame/Classes/States/Editor/EditorState.cs:266 | the `(int)` cast drops the fraction towards zero |
| Numerics.CsDivModTruncate | IsometricGame/Map/MapLoader.cs:96-97 | C# `/` and `%` split a number into quotient and remainder, the remainder taking the sign of the dividend |
| Numerics.CsDiv | IsometricGame/Map/MapLoader.cs:97 | C# division: equal to Euclidean division for a non-negative dividend and positive divisor, non-negative when the operands agree in sign and non-positive when they differ |
| Numerics.CsMod | IsometricGame/Map/MapLoader.cs:96 | C# remainder: equal to Euclidean remainder for a non-negative dividend and positive divisor |
| Text.IntToString | IsometricGame/Classes/States/Editor/EditorState.cs:268 | the decimal text of an int (as in the "Layer (Z={z})" name) is never empty and starts with '-' exactly when the number is negative |
| Numerics.LerpShrinksGap | IsometricGame/Camera.cs:39 | `Vector2.Lerp` by t leaves (1 - t) of the gap to the target, and t = 0 and t = 1 give the ends |

## Left out

- Drawing and assets: every `Draw` method, EditorRenderer, DrawUtils, AssetManager, textures, fonts and sounds (`Play` calls). They produce no state the simulation reads back; texture availability is a parameter (a set of asset names) where a decision depends on it.
- Menu and UI screens (MenuState, OptionsState, PauseState, ExitConfirmState, GameOverState, GameStateBase) and EditorInputHandler: navigation glue over state names and key presses.
- File I/O and JSON: reading and deserialising a map file (IsometricGame/Map/MapLoader.cs:22-49) becomes an optional parsed `MapData` parameter; EditorState's SaveMap and LoadMap are not modelled, and InitializePalette receives the sample map's tile list as a parameter.
- The editor's `_mapSprites` render cache and RebuildMapSprites: a view of the layers kept for drawing only.
- Particles and visual effects: Explosion, Fall, Particle, FloatingText, screen shake, and the sine bobbing of gems and items (`_floatTimer`, `BaseYOffsetWorld`).
- Randomness: loot rolls, the enemy type pick and spawn offset of a wave spawn, the spawn draws of SpawnEnemies and the upgrade shuffle are parameters; the shuffle is any permutation of the pool.
- Trigonometry and normalisation: the enemy steering blend (IsometricGame/Classes/EnemyBase.cs:186-225) is a unit direction parameter, the orbit's `MathF.Cos`/`MathF.Sin` is the parameter `unit`, and `Vector2.Normalize`, in the gem's pull and in the wand's aim, is the parameter `normalize`.
- Float32 arithmetic is modelled over reals. Rounding (`MathF.Round`, half to even), C# casts and C# integer `/` and `%` are modelled exactly.
- Pathfinder.FindPath: the search runs with a `fuel` bound on the number of expansions and answers OutOfFuel when the bound is reached first; the source's grid is unbounded and its loop stops only on success or exhaustion.
- Pathfinder.Neighbors: the start's z is an integer level; the truncation of a fractional start z in GetNeighbors is not modelled.
- Players.Player.Update: the fire gate is checked before the walk step (the source walks first). The two touch disjoint state, and the bullet's starting position is not modelled.
- HandleCollisions (IsometricGame/Classes/States/GameplayState.cs:415-484) is not modelled: it calls `Damage(gameTime)`, which does not match EnemyBase's `Damage(int)`.
- Gameplay.GameplayState.SpawnEnemies: the map's width and height (20 by default when no map data is loaded) only bound the random draws, so the draws are a parameter and the default size takes no part.
- Gems.ExperienceGem.constructor: the texture fallbacks when an image is missing (IsometricGame/Classes/ExperienceGem.cs:29-34) are not modelled; the constructor states the chosen tier's name.
- Editor.NewTrigger: the contract states the "Trigger_" prefix, position, target and radius; the decimal number after the prefix is in the body (`NatToString(n + 1)`) but not restated in the contract.
- Upgrades.WeaponUpgradeDescription, Upgrades.PassiveDescription: the contracts state the level prefix, not the rest of the text.
- Weapons.Ring: the contract states the number of projectiles; their angles are stated by Weapons.RingSpacing.
- Weapons.Weapon.WandAttack: a shot's bullets (Bullet.CreateBullets) are not part of this model, so a wand attack adds no sprites to the world; the shot it returns carries pattern, normalised direction, damage and count.
- Players.Player.Fire: Bullet.CreateBullets with the "single" pattern (IsometricGame/Classes/Player.cs:60) is not part of this model; the model assumes it creates exactly one bullet and adds that one.
- Editor.EditorState.PlaceTile: the model keeps the layer list in strictly increasing Z order with one layer per Z level, which holds for maps made by CreateNewMap. A loaded map could bring unsorted or duplicate-Z layers (LoadMap is not modelled); the source's `Layers.Add` then `Layers.Sort` (IsometricGame/Classes/States/Editor/EditorState.cs:268) would sort such a list wholesale, and the model does not cover that case.
- Gems.ExperienceGem.Update: the experience handed to the player is returned as `gained`; Player.AddExperience is not part of this model.
- ItemDrop and Chest: their effects call Player members that are not part of this model.
- Both MapGenerator files: hard-coded sprite placement that never touches the solid set.
- GameEngine's globals become the `World` object; Sprite.cs is folded into it as the kill step (`World.Kill`).
- Constants.MaxZLevel, Constants.MaxLife and Constants.WorldSize are not part of this model: they are constructor or function parameters.
