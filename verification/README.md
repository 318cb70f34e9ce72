# dosemu in Dafny

dosemu is a small JavaScript library that imitates a DOS-era VGA screen (320×200 pixels, a 256-colour palette, bitmap fonts, sprites) and a square-wave sound sequencer. It comes with asset converters (MIDI to note lists, `.fnt` fonts to pixel matrices, PNG to palette sprites) and a demo tank game. This project models the core of the library and of the tank game, and proves properties of that model:

- `BBox` (bbox.dfy): bounding boxes from lib/dosemu-bbox.mjs. It covers translation, the quarter turn and the overlap descriptor.
- `Entities` (entities.dfy): the entity classes of the tank game. `Tank`, `Bullet` and `Brick` are classes whose fields the handlers update. `EntityRef` is the closed union the base `Entity` stands for.
- `World` (world.dfy): the world container. It holds the player, enemies, bullets, bricks, the 10×16 brick grid and the deferred draw queue. The invariant `Valid` ties the grid to the brick list.
- `Collision` (collision.dfy): `checkCollision` and `getNearestCollision`. Candidates are gathered in a fixed order, sorted by a comparator that never orders two events, and the motion factor is derived from normalised overlaps. `NaN` is modelled explicitly by the `Number` datatype.
- `Game` (game.dfy): `Entity.move`, `Tank.move`, `Tank.fire` and `Bullet.update`, with the handler dispatch.
- `AI` (ai.dfy): the AI controller. It covers planning, plan execution, the orientation toward the player and `Tank.update`.
- `Level` and `Placement` (level.dfy, placement.dfy): the level map walk of `placeEntities`, with `createPlayer` and `createEnemy`.
- `Scenario` (scenario.dfy): the frame `update` of examples/tanks/tanks-scenario.js and of scenarios/tanks/tanks.mjs. Each has in-place splice loops and `handlePlayerKeys`.
- `EarlyTanks` (early_tanks.dfy): the earlier single-file version, scenarios/tanks.mjs.
- `Common` (common.dfy): `Keep`, the order-preserving filter that every splice loop computes.
- `Sprites` (sprite.dfy): `rotateSprite` and `computeBoundingBox` of lib/dosemu-sprite.js.
- `Midi`, `Font` and `SpriteConv`: the pure cores of the three converters under tools/.
- `Framebuffer` (framebuffer.dfy): the RGBA pixel buffer of src/dosemu.js (the back buffer) and lib/dosemu.mjs (the front buffer). It covers the pixel write, bars, rectangles, the midpoint circle, text, sprite blitting and noise.
- `Sound` (sound.dfy): the note player state machine and the player list of lib/dosemu-sound.mjs.

Numbers are exact `real`s, not IEEE doubles. `Math.sqrt` and `Math.random` are parameters: a `norm` with `IsNorm(norm, dX, dY)`, and sequences of draws.

## Model

| member | source | states |
|---|---|---|
| BBox.MoveBoundingBox | lib/dosemu-bbox.mjs:12-19 | Translation keeps a box's width and height and keeps it well-formed. |
| BBox.MoveComposes | lib/dosemu-bbox.mjs:12-19 | Translating by (x1, y1) then (x2, y2) is translating by their sum; translating by (0, 0) changes nothing. |
| BBox.RotateBBox | lib/dosemu-bbox.mjs:25-32 | A quarter turn swaps width and height and keeps a box well-formed. |
| BBox.RotateTwiceMirrors | lib/dosemu-bbox.mjs:25-32 | Two quarter turns negate every edge: up becomes minus down, left becomes minus right. |
| BBox.RotateFourTimesIsIdentity | lib/dosemu-bbox.mjs:25-32 | Four quarter turns give back the box. |
| BBox.GetBoundingBoxOverlap | lib/dosemu-bbox.mjs:60-75 | For well-formed boxes there is a descriptor exactly when both intervals meet, touching edges included. Its relative position is the offset of the second box's top-left corner from the first's. |
| BBox.OverlapDepth | lib/dosemu-bbox.mjs:65-73 | The x overlap is negative exactly when the second box enters the first from the left. It is then the first's left edge minus the second's right edge. When positive it is how far the second box reaches in from the right, capped at the first box's width. Its magnitude never exceeds that width. The same holds on y with the top and the height. |
| BBox.OverlapSymmetric | lib/dosemu-bbox.mjs:60-75 | Swapping the boxes keeps whether they overlap, and negates the relative position. |
| BBox.TouchingEdgesOverlap | lib/dosemu-bbox.mjs:61-68 | Two boxes that only share an edge, the second on the right, overlap with an x overlap of zero. |
| Common.KeepSplice | examples/tanks/tanks-scenario.js:85-92 | One step of an index-walk splice loop extends the kept prefix by the element or drops it. |
| Common.KeepKeepsFlagged | examples/tanks/tanks-scenario.js:85-92 | Every element whose flag is set survives the splice loop. |
| Common.KeptAreFlagged | examples/tanks/tanks-scenario.js:85-92 | Only flagged elements survive the splice loop. |
| Common.KeepDistinct | examples/tanks/tanks-scenario.js:85-92 | Splicing a list without repetitions leaves a list without repetitions. |
| Entities.EnableCollision | examples/tanks/entity.js:38-44 | A type is enabled afterwards exactly when it was enabled before or is the one added. |
| Entities.EnableCollisionIdempotent | examples/tanks/entity.js:38-40 | Enabling an enabled type changes nothing. |
| Entities.Tank.constructor | examples/tanks/tank-entity.js:25-34 | A new tank reacts to bullets, bricks and tanks, with 100 health, a fire timer of 100, a 0.6 s fire interval, bullet speed 150 and no controller. |
| Entities.Tank.GetBoundingBox | examples/tanks/tank-entity.js:39-41 | The box is the sprite box for the current orientation, translated to the tank's position. |
| Entities.Tank.AddController | examples/tanks/tank-entity.js:114-116 | The controller is attached with nothing planned yet. |
| Entities.Tank.Update | scenarios/tanks/tank-entity.mjs:61-63 | In the controller-less twin, an update only advances the fire timer by dt. |
| Entities.Tank.Reload | examples/tanks/tank-entity.js:83-85 | The timer becomes the larger of itself and half the fire interval (also scenarios/tanks/tank-entity.mjs:76-78). |
| Entities.Tank.BulletFiringPosition | examples/tanks/tank-entity.js:87-95 | The muzzle lies half the "up" sprite's height ahead of the tank along its facing, and level with it across (also scenarios/tanks/tank-entity.mjs:80-88). |
| Entities.Tank.HandleCollision | examples/tanks/tank-entity.js:98-111 | Health drops by `DamageTaken`: a foreign bullet's damage, and nothing for a bullet of the tank's own faction, a brick or a tank (also scenarios/tanks/tank-entity.mjs:91-100). |
| Entities.Bullet.constructor | examples/tanks/bullet-entity.js:16-24 | A new bullet reacts to bricks and tanks only, carries damage 15 and is not dead. |
| Entities.Bullet.GetBoundingBox | examples/tanks/bullet-entity.js:29-31 | The box is the bullet sprite box translated to its position. |
| Entities.Bullet.Step | examples/tanks/bullet-entity.js:34-41 | The requested move is speed·dt along the orientation and zero across it. |
| Entities.Bullet.HandleCollision | examples/tanks/bullet-entity.js:61-69 | A bullet dies exactly when it runs into a brick or a tank, and otherwise keeps its state. |
| Entities.BulletSparesOwnFaction | examples/tanks/bullet-entity.js:54-58 | A bullet filters out exactly the tanks of its own faction, and accepts everything else. |
| Entities.Brick.constructor | examples/tanks/brick-entity.js:13-17 | A new brick reacts to bullets only and is whole. |
| Entities.Brick.GetBoundingBox | examples/tanks/brick-entity.js:22-24 | The box is its type's sprite box translated to the brick's position. |
| Entities.Brick.HandleCollision | examples/tanks/brick-entity.js:32-36 | A brick breaks exactly when a bullet hits a type-1 brick; any other collision leaves it as it was (same lines in scenarios/tanks/brick-entity.mjs). |
| Entities.Brick.Break | examples/tanks/brick-entity.js:39-42 | `break` marks the brick dead. |
| Entities.HandleCollision | examples/tanks/entity.js:34 | The dispatch runs the handler of the receiver's variant: the tank, bullet or brick rule above. |
| World.World.constructor | examples/tanks/world.js:12-28 | A new world has no player, enemies, bullets, bricks or queued draws, and a fresh grid. It is valid. |
| World.World.DrawOnTop | examples/tanks/world.js:38-40 | The call is queued behind those already queued (also scenarios/tanks/world.js:33-35). |
| World.World.DrawOnTopExec | examples/tanks/world.js:42-47 | Every queued call is invoked in queue order, then the queue is empty (also scenarios/tanks/world.js:37-42). |
| World.CellOfCorner | examples/tanks/tanks-scenario.js:110-112 | A brick placed at a cell's corner maps back to that cell's row and column. |
| World.BricksOwnTheirCells | examples/tanks/tanks-scenario.js:93-100 | In a valid world, a listed brick's cell holds that brick, and no two listed bricks share a cell. |
| Level.Flat | examples/tanks/tanks-scenario.js:104-106 | A cell of the grid has a walking position below 160. |
| Level.RowStart | examples/tanks/tanks-scenario.js:104-106 | The cells of row i are walked at consecutive positions from its start; the rows end at 160. |
| Level.RowStartStep | examples/tanks/tanks-scenario.js:104-106 | Row i + 1 starts 16 cells after row i. |
| Level.CellAt | examples/tanks/tanks-scenario.js:104-106 | The cell walked at position n is in the grid, at position n. |
| Level.CellAtFlat | examples/tanks/tanks-scenario.js:104-106 | Walking reaches every grid cell exactly at its position. |
| Level.CellsWhere | examples/tanks/tanks-scenario.js:107-116 | Among the first n cells, at most n have a code in a range. |
| Level.CellsWhereSound | examples/tanks/tanks-scenario.js:107-116 | Every listed cell is in the grid, among the first n walked, with a code in range. |
| Level.CellsWhereOrdered | examples/tanks/tanks-scenario.js:107-116 | Listed cells are in walking order, so none repeats. |
| Level.CellsWhereComplete | examples/tanks/tanks-scenario.js:107-116 | Every cell among the first n with a code in range is listed. |
| Level.LastPlayerCellIsLast | examples/tanks/tanks-scenario.js:117-119 | The player placed is the one of the last player cell walked; with no player cell, none is placed. |
| Level.CellOfCentre | examples/tanks/tanks-scenario.js:114-118 | A tank created at a cell's centre lies in that cell. |
| Placement.PlaceBrick | examples/tanks/tanks-scenario.js:110-113 | A brick cell adds one brick at the cell's corner, referenced from the grid; the placement invariant holds one cell further on. |
| Placement.PlaceEnemy | examples/tanks/tanks-scenario.js:129-133 | An enemy cell adds a tank at the cell's centre with that code's sprites, and an AI controller when controllers are attached. |
| Placement.PlaceCell | examples/tanks/tanks-scenario.js:107-119 | One cell places its brick, its enemy or the player, as its code says; nothing is placed for other codes. |
| Placement.PlaceRow | examples/tanks/tanks-scenario.js:106-120 | One row is walked left to right, and the placement invariant moves 16 cells on. |
| Placement.PlacedBricksInCells | examples/tanks/tanks-scenario.js:103-122 | After the walk, every listed brick lies on its own cell's corner and is referenced from it. |
| Placement.PlacedCellsHoldBricks | examples/tanks/tanks-scenario.js:103-122 | After the walk, a grid cell holds a brick exactly when its code is a brick code (1 to 4). |
| Placement.PlaceEntities | examples/tanks/tanks-scenario.js:103-122 | The world is valid afterwards, with bricks exactly on the brick cells, enemies in walking order and the last player cell's player. The same code is scenarios/tanks/tanks.mjs:95-114 and scenarios/tanks.mjs:99-118, both without controllers. |
| Collision.Comparator | examples/tanks/collision.js:89-93 | The comparator reads fields the descriptor does not have, so every comparison is NaN. |
| Collision.StableSort | examples/tanks/collision.js:89-93 | The sort returns as many elements as it is given. |
| Collision.InsertPermutes | examples/tanks/collision.js:89-93 | Stable insertion adds the new element and loses none of the sorted ones. |
| Collision.StableSortPermutes | examples/tanks/collision.js:89-93 | The sorted list is a permutation of the input. |
| Collision.StableSortOfTies | examples/tanks/collision.js:89-93 | A stable sort under a comparator that orders nothing keeps the input order. |
| Collision.SortKeepsGatheredOrder | examples/tanks/collision.js:89-94 | Sorting the events leaves them in gathered order. |
| Collision.NearestIsFirstGathered | examples/tanks/collision.js:85-94 | The nearest collision is the first gathered event, and there is none when nothing was gathered. |
| Collision.ClampInt | scenarios/tanks.mjs:205-209 | For lo ≤ hi the result lies in [lo, hi], and it is x when x already does. For hi < lo it is hi (same code as examples/tanks/collision.js:43-47). |
| Collision.WindowOf | examples/tanks/collision.js:73-76 | The row and column window the grid scan visits lies within the grid (also scenarios/tanks.mjs:232-235). |
| Collision.CollectTankEvents | examples/tanks/collision.js:62-71 | The loop gathers the player's event, then each enemy's in list order, skipping the mover. |
| Collision.CollectRowEvents | examples/tanks/collision.js:78-83 | The inner loop gathers the events of one row's cells in the window, left to right. |
| Collision.CollectGridEvents | examples/tanks/collision.js:77-83 | The nested loops gather the events of the window's cells, row by row. |
| Collision.GetNearestCollision | examples/tanks/collision.js:59-95 | The result is the first event of the gathered list (player, enemies, bricks row-major), or none. |
| Collision.EnemyEventsSound | examples/tanks/collision.js:66-70 | Every enemy event is a genuine, filtered overlap with an enemy other than the mover. |
| Collision.EnemyEventsComplete | examples/tanks/collision.js:66-70 | Every enemy other than the mover that overlaps the box and passes the filter is gathered. |
| Collision.RowEventsSound | examples/tanks/collision.js:78-83 | Every row event is a genuine, filtered overlap with a brick in that row of the window. |
| Collision.RowEventsComplete | examples/tanks/collision.js:78-83 | Every overlapping brick in that row of the window that passes the filter is gathered. |
| Collision.GridEventsSound | examples/tanks/collision.js:77-83 | Every grid event is a genuine, filtered overlap with a brick of the window. |
| Collision.GridEventsComplete | examples/tanks/collision.js:77-83 | Every overlapping brick in the window that passes the filter is gathered. |
| Collision.GatherSound | examples/tanks/collision.js:59-84 | Every gathered event is a genuine overlap with a tank or brick of the world other than the mover, of an enabled type; bullets are never gathered. |
| Collision.EnemyEventsWithout | examples/tanks/collision.js:66-70 | Since the enemy loop skips the mover, a tank gathers the same enemy events from the list with itself removed. |
| Collision.GatherIsBeside | examples/tanks/collision.js:59-84 | What a tank's lookup gathers depends only on the other tanks, the grid and the box, not on the tank itself. |
| Collision.GatherFindsTank | examples/tanks/collision.js:62-71 | With tanks enabled, every other tank that overlaps and passes the filter is gathered. |
| Collision.WindowCoversBrick | examples/tanks/collision.js:73-76 | A brick in its cell that overlaps the box lies inside the scanned window. |
| Collision.GatherFindsBrick | examples/tanks/collision.js:72-84 | With bricks enabled, every listed brick that overlaps and passes the filter is gathered. |
| Collision.Sign | examples/tanks/collision.js:17-18 | The sign times x is \|x\|, and the sign lies in [-1, 1]. |
| Collision.Clamp | examples/tanks/collision.js:43-47 | NaN passes through the clamp; a number comes out within [lo, hi], unchanged when already inside. |
| Collision.NormalizedOverlap | examples/tanks/collision.js:27 | The value is NaN exactly for a zero move; otherwise it lies in [0, 1]. |
| Collision.MotionFactorBounds | examples/tanks/collision.js:35 | The motion factor lies in [0, 1], and is 1 when the move does not deepen the overlap. |
| Collision.FreeMoveOutcome | examples/tanks/collision.js:20-26 | With no collider, the full move is granted. |
| Collision.CollisionOutcomeFrom | examples/tanks/collision.js:27-40 | The outcome is determined by the nearest event at the projected box and the nearest at the current box. |
| Collision.NearestCollisionKeeping | examples/tanks/collision.js:19-29 | Looking up the nearest collision for one box leaves unchanged what would be gathered for any other box. |
| Collision.CheckCollision | examples/tanks/collision.js:15-41 | The loops compute the specification `CollisionOutcome`: the first projected event's collider and the travel its motion factor grants. |
| Collision.ColliderIsFirstProjectedEvent | examples/tanks/collision.js:16-26 | The reported collider is the first event gathered for the projected box, or there is none. |
| Collision.ColliderIsGenuine | examples/tanks/collision.js:49-57 | A reported collider is a tank or brick of the world, other than the mover, that overlaps the projected box. |
| Collision.TravelIsShortenedMove | examples/tanks/collision.js:35-40 | The travel lies between zero and the move on each axis, and is parallel to the move. |
| Collision.CollisionIsShortenedMove | examples/tanks/collision.js:15-41 | Every check grants the requested move or a shortening of it in the same direction. |
| Collision.TravelFactor | examples/tanks/collision.js:35-40 | There is a factor in [0, 1] by which both components of the move are scaled to give the travel. |
| Collision.ShallowerMoveIsFull | examples/tanks/collision.js:29-40 | A move that does not deepen the overlap is granted in full. |
| Collision.BuriedMoveIsCutBack | examples/tanks/collision.js:27-40 | With no collision at the current box, a projected overlap of normalised depth f cuts the move to (1 - f) of itself. A fully buried move travels nothing. |
| Collision.TankOutcomeIsBeside | examples/tanks/collision.js:15-41 | A tank's check has the outcome computed from what the other tanks and the grid give around its boxes. |
| Collision.ZeroMoveStaysPut | examples/tanks/collision.js:15-41 | A zero move travels nothing. Its collider is the first event gathered at the current box. |
| Game.Collide | examples/tanks/entity.js:53-58 | The mover handles the collider; the collider handles the mover only when it reacts to the mover's type. |
| Game.Translate | examples/tanks/entity.js:59-60 | The position grows by the travel. |
| Game.CheckIsGenuine | examples/tanks/collision.js:15-41 | Every check grants the requested move or less, and reports a collider of the world. |
| Game.ApplyOutcome | examples/tanks/entity.js:53-60 | The position grows by the travel. Each tank loses what the collision costs it, a brick breaks exactly when the collision breaks it, and a bullet dies on a brick or tank collider. |
| Game.Move | examples/tanks/entity.js:51-61 | The checked travel is a shortening of the move and the collider is of the world. The mover travels it, and the handlers' health losses, breakages and bullet death follow from the collider. The outcome is the one `CollisionOutcome` determines from the state before the move. |
| Game.TurnedFacesMove | examples/tanks/tank-entity.js:124-132 | A tank turns to face its move; a still tank keeps its orientation; the horizontal component wins. |
| Game.TankMoveIsHarmless | examples/tanks/tank-entity.js:98-111 | A tank only runs into tanks and bricks, and neither costs health nor breaks. |
| Game.MoveTank | examples/tanks/entity.js:51-61 | A tank's move travels a shortening of the request and hurts nobody. Its outcome is the one computed from what the other tanks and the grid give around the tank's box before the move. |
| Game.TankMove | examples/tanks/tank-entity.js:124-135 | The tank turns toward the move and moves as any entity does; no tank loses health and no brick breaks. The outcome is the one the check determines from the turned box, with the world as it was before the move. |
| Game.Fire | examples/tanks/tank-entity.js:72-81 | Once the interval has elapsed, one new bullet is appended at the firing position and the timer restarts; otherwise nothing changes (also scenarios/tanks/tank-entity.mjs:65-74). |
| Game.AxisMoveNorm | examples/tanks/collision.js:27 | A one-axis move's length is the sum of the absolute components. |
| Game.BulletHitCost | examples/tanks/tank-entity.js:99-105 | A bullet hit costs the struck foreign tank the bullet's damage, and nobody else anything. |
| Game.BulletMove | examples/tanks/bullet-entity.js:34-41 | The bullet moves speed·dt along its orientation, as any entity moves. The outcome is the one `CollisionOutcome` determines for that step from the state before it. |
| Game.BulletUpdate | examples/tanks/bullet-entity.js:33-46 | After moving, the bullet dies if it has left the play field or has run into a tank or brick. The move's outcome is the one the check determines for the step from the state before it. |
| AI.ActionMove | examples/tanks/ai-controller.js:45-63 | A plan's move lies along one axis. |
| AI.MovePlanFacesItsDirection | examples/tanks/ai-controller.js:49-60 | A move plan turns the tank toward its direction and moves it that way. |
| AI.FirePlanDrivesDown | examples/tanks/ai-controller.js:47-51 | As written, a fire plan also drives the tank down and turns it to face down. |
| AI.OrientationTowardIsBest | examples/tanks/ai-controller.js:79-87 | The orientation toward the player covers the larger of \|dx\| and \|dy\|, and no direction covers more. |
| AI.DirectionOf | examples/tanks/ai-controller.js:107-110 | A draw in [0, 1) picks one of the four directions, each over a quarter of the range. |
| AI.DecisionCases | examples/tanks/ai-controller.js:24-41 | A decision is a 3 s fire plan exactly when the tank is in line with and facing the player and the draw allows it; otherwise a 1 s chase, fool-around or idle plan. |
| AI.PlanLastsItsTime | examples/tanks/ai-controller.js:16-22 | With frames of a fixed length, a plan lasts as many frames as its time allows. |
| AI.ExecutePlannedAction | examples/tanks/ai-controller.js:45-64 | A plan is carried out for one frame: a fire plan fires when ready then moves down, a move plan turns and moves, idle does nothing. Nobody is hurt. |
| AI.FollowPlan | examples/tanks/ai-controller.js:16-23 | The planned action runs and the plan's time runs down; the plan ends when its time is used up. |
| AI.PlanNext | examples/tanks/ai-controller.js:24-41 | Without a plan, the tank may fire on the 5% draw and then takes the decision's orientation and plan, without moving. |
| AI.AIUpdate | examples/tanks/ai-controller.js:15-42 | A plan is followed, else a new one is made; the tank fires only when it wants to and is ready, and nobody is hurt. |
| AI.TankUpdate | examples/tanks/tank-entity.js:65-70 | The fire timer advances by dt, then an attached AI controller takes its turn. |
| Scenario.UpdateEnemyAt | examples/tanks/tanks-scenario.js:75-82 | One enemy is updated and spliced out exactly when it was dead before; bullets are only appended. |
| Scenario.UpdateNextEnemy | examples/tanks/tanks-scenario.js:74-83 | One turn of the enemy loop keeps the splice invariant over the enemies and their liveness. |
| Scenario.UpdateEnemies | examples/tanks/tanks-scenario.js:74-83 | Every enemy is updated in order; those left are exactly the ones alive at the start, in order (also scenarios/tanks/tanks.mjs:67-75). |
| Scenario.UpdateNextBullet | examples/tanks/tanks-scenario.js:85-92 | One turn of the bullet loop keeps the splice invariant over the bullets that survived their update. |
| Scenario.SurvivingBullets | examples/tanks/tanks-scenario.js:85-92 | The kept bullets are the live ones, in order, none twice. |
| Scenario.UpdateBullets | examples/tanks/tanks-scenario.js:85-92 | Every bullet is updated in order. The ghost flags `alive` say, bullet by bullet, whether it is alive after its update. The bullets left are the old list filtered by those flags, in order, and none is dead. |
| Scenario.PruneNextBrick | examples/tanks/tanks-scenario.js:93-100 | One turn of the brick loop keeps the splice invariant and clears a broken brick's cell. |
| Scenario.PruneBricks | examples/tanks/tanks-scenario.js:93-100 | The bricks left are exactly the whole ones, in order; a cell is cleared exactly when its brick broke; the world stays valid. |
| Scenario.UpdateTanks | examples/tanks/tanks-scenario.js:73-84 | The enemies then the player are updated. The enemies left are those alive before. Bullets are only appended: the old list is a prefix, the new ones are fresh, and none is listed twice. |
| Scenario.UpdateShots | examples/tanks/tanks-scenario.js:85-100 | The bullets left are the old ones alive after their update, in order. No dead bullet or brick stays listed, and the grid loses exactly the broken bricks. |
| Scenario.Update | examples/tanks/tanks-scenario.js:73-101 | `mid` is the bullet list after the tanks' turn: the old list, then fresh bullets. The bullets left are those of `mid` alive after their update, in order. The enemies are those alive at the start of the frame, no listed bullet or brick is dead, and the world is valid. |
| Scenario.SteerPlayer | scenarios/tanks/tanks.mjs:120-150 | Each held arrow key turns the player toward it, or asks for a 30·dt move when the player already faces it. |
| Scenario.DrivePlayer | scenarios/tanks/tanks.mjs:120-153 | The player is steered and a non-zero move is carried out; nobody is hurt and no brick breaks. The move's outcome is the one the check determines from the player's box after steering, with the world as it was before. |
| Scenario.HandlePlayerKeys | scenarios/tanks/tanks.mjs:120-159 | After steering, the space bar fires and otherwise the gun reloads. A non-zero move's outcome is the one the check determines from the steered box, with the world as it was before. |
| Scenario.PlayerKeys | scenarios/tanks/tanks.mjs:120-159 | What the frame relies on after the keys: the player faces the last arrow key and makes the shortened move with the checked outcome. Its fire timer is reset on a shot, kept while space is held, and otherwise raised to at least half the interval. Nobody is hurt, no brick breaks, and bullets are only appended. |
| Scenario.UpdateWithKeys | scenarios/tanks/tanks.mjs:65-93 | The keys act first, then the frame runs as in the example. The enemies left are those alive at its start. The bullets left are those of `mid` (the old list, then fresh ones) alive after their update, in order. The move's outcome is the checked one. Unless the player is also listed as an enemy, it faces the last arrow key, stands where the move took it, and has its fire timer set by the keys and then advanced by dt. |
| EarlyTanks.EarlyFiringPosition | scenarios/tanks.mjs:294-302 | The muzzle lies a fixed offset ahead of the tank's centre along its facing. |
| EarlyTanks.EarlyFire | scenarios/tanks.mjs:279-288 | Once the interval has elapsed, one bullet is appended flying the tank's way and the timer restarts; otherwise nothing changes. |
| EarlyTanks.EarlyReload | scenarios/tanks.mjs:290-292 | The timer is set to the fire interval, so the next fire shoots. |
| EarlyTanks.EarlyMove | scenarios/tanks.mjs:309-313 | The tank moves by the whole of (dx, dy); obstacles do not stop it. |
| EarlyTanks.EarlyBulletUpdate | scenarios/tanks.mjs:332-343 | The bullet moves speed·dt along its orientation and dies exactly when it leaves [-10, 330] × [-10, 210]. |
| EarlyTanks.EarlyHandlePlayerKeys | scenarios/tanks.mjs:124-163 | The arrow keys steer as in the later version, a move is made in full, and space fires or otherwise reloads. |
| EarlyTanks.TickEnemies | scenarios/tanks.mjs:85-87 | Every enemy's fire timer advances by dt and no enemy is removed. |
| EarlyTanks.EarlyUpdateNextBullet | scenarios/tanks.mjs:89-96 | One turn of the bullet loop keeps the splice invariant. |
| EarlyTanks.EarlyUpdateBullets | scenarios/tanks.mjs:89-96 | The bullets left are exactly those alive after their move, in order. |
| EarlyTanks.EarlyAdvance | scenarios/tanks.mjs:85-96 | The enemies' and then the player's timers advance, and the bullets move with the dead ones dropped. |
| EarlyTanks.EarlyUpdate | scenarios/tanks.mjs:83-97 | The keys act, the timers advance and the bullets move. The bullets left are those of `mid` (the old list, plus a fresh shot if one was fired) still flying, in order. The enemy and brick lists never change. |
| Sprites.TurnTimesAdd | lib/dosemu-sprite.js:54-58 | Turning a times then b times is turning a + b times. |
| Sprites.TurnTwice | lib/dosemu-sprite.js:35-59 | A half turn keeps the size, and mirrors the pixels, the origin and the box through the centre. |
| Sprites.TurnFourTimes | lib/dosemu-sprite.js:35-59 | Four quarter turns give back the sprite. |
| Sprites.RotateOnce | lib/dosemu-sprite.js:36-53 | One pass builds a fresh sprite equal to the quarter turn `Turn`. It keeps the transparent colour and has no custom bounds. |
| Sprites.RotateSprite | lib/dosemu-sprite.js:35-59 | The result is `times % 4` quarter turns of the sprite, with no custom box bounds. |
| Sprites.ExtentUnique | lib/dosemu-sprite.js:66-84 | The extent of the drawn pixels is unique, so the box is determined by the pixels. |
| Sprites.ScanRow | lib/dosemu-sprite.js:72-83 | The inner loop extends the extent found over one row. |
| Sprites.ComputeBoundingBox | lib/dosemu-sprite.js:66-91 | The scan finds the extent of the drawn pixels, and the stored box is that extent less the origin, with each given custom bound replacing its edge. |
| Sprites.ScannedBoxIsTight | lib/dosemu-sprite.js:66-91 | With drawn pixels and no custom bounds, the box is well-formed, no drawn pixel lies outside it, and its left edge touches a drawn pixel. |
| Sprites.EmptySpriteBox | lib/dosemu-sprite.js:66-91 | With no drawn pixel and no custom bounds, the box is the scan's start values less the origin: up = height - originY, down = -originY, left = width - originX, right = -originX. |
| Midi.PickHead | tools/midiconv/midiconv.js:24-32 | The index is a head. With non-negative ticks, its tick is the smallest among the heads, and every earlier head has a larger tick. |
| Midi.InitialHeads | tools/midiconv/midiconv.js:15-22 | The heads are position 0 of every non-empty track. |
| Midi.StateStep | tools/midiconv/midiconv.js:33-37 | One turn of the merge loop keeps the merge invariant. |
| Midi.OrderStep | tools/midiconv/midiconv.js:26-37 | The note taken is no earlier than any note taken before it. |
| Midi.HeadsDrop | tools/midiconv/midiconv.js:35-37 | Splicing out an exhausted head keeps the heads valid. |
| Midi.HeadsAdvance | tools/midiconv/midiconv.js:33-34 | Advancing a head keeps the heads valid. |
| Midi.MergeTracks | tools/midiconv/midiconv.js:10-42 | With at most one track, nothing changes. Otherwise there is one track: a merge of the tracks that keeps each track's order and is a permutation of all notes. It is sorted by tick when the tracks are sorted with non-negative ticks. |
| Midi.MergeStart | tools/midiconv/midiconv.js:13-22 | Before the loop, nothing is taken and every note is still to merge. |
| Midi.MergeEnd | tools/midiconv/midiconv.js:23-41 | When no note remains, the merged list is a merge of the tracks and a permutation of their notes. |
| Midi.KeyValuesPositive | tools/midiconv/midiconv.js:6-8 | The key table has 128 entries, all positive. |
| Midi.KeyFrequency | tools/midiconv/midiconv.js:6-8 | A key's frequency is positive, so a tone is never a silence. |
| Midi.ScanBack | tools/midiconv/midiconv.js:53-61 | The backward scan ignores the note exactly when a higher key is met before any note that starts earlier. |
| Midi.ScanOn | tools/midiconv/midiconv.js:62-69 | The forward scan ignores the note exactly when a higher key is met before any note that starts later. |
| Midi.Flatten | tools/midiconv/midiconv.js:48-79 | The loop computes the specification `ConvertFrom` of the merged notes, from the start. |
| Midi.ConvertMidi | tools/midiconv/midiconv.js:44-81 | The tracks are merged as `MergeTracks` says, and the note list is `ConvertFrom` of the merged track. |
| Midi.ConvertEndsWithStop | tools/midiconv/midiconv.js:79 | The list ends with [0, 0]. |
| Midi.EmittedEntries | tools/midiconv/midiconv.js:70-77 | A kept note emits silences of positive length, then its tone, which has a positive frequency. |
| Midi.SilencesArePositive | tools/midiconv/midiconv.js:70-79 | Every silence inserted has a positive duration. |
| Midi.VoicedAreKeptNotes | tools/midiconv/midiconv.js:70-79 | Without the silences, the output is exactly the tones of the notes not ignored, in order. |
| Midi.IgnoredWhenSorted | tools/midiconv/midiconv.js:52-69 | On a sorted track, a note is dropped exactly when another note struck at the same tick has a higher key. |
| Font.Bit | tools/fontconv/convert-fnt.js:36 | A bit of a byte is 0 or 1. |
| Font.Pixel | tools/fontconv/convert-fnt.js:36 | A pixel is 0 or 1. It is 1 exactly when the byte exists and its bit j, counted from the least significant, is set. |
| Font.CharMatrix | tools/fontconv/convert-fnt.js:31-41 | A glyph is 10 lines of 8 pixels, and pixel (i, j) is `Pixel` of byte i. |
| Font.ToCharData | tools/fontconv/convert-fnt.js:31-41 | The loops produce the glyph matrix of the record's 10 bytes. |
| Font.FontOf | tools/fontconv/convert-fnt.js:13-23 | The width and height are bytes 0 and 1, and there are 256 glyphs of 10 lines each. |
| Font.ConvertFont | tools/fontconv/convert-fnt.js:13-23 | The loops produce one glyph per record in the file. |
| Font.BitsRoundTrip | tools/fontconv/convert-fnt.js:33-38 | The first n bits of v, read back, give v when v < 2^n. |
| Font.RowRoundTrip | tools/fontconv/convert-fnt.js:33-38 | A row of bits has a value below 2^length, and that value's bits give the row back. |
| Font.LineRoundTrip | tools/fontconv/convert-fnt.js:33-38 | A line's pixels, read back as bits, give the line's byte. |
| Font.LineByte | tools/fontconv/convert-fnt.js:36 | Every row of 8 bits is the pixels of some byte. |
| Font.EncodeFont | tools/fontconv/convert-fnt.js:13-23 | A storable font encodes to a file of the full size. |
| Font.FileRoundTrip | tools/fontconv/convert-fnt.js:13-23 | A full-size file decodes to a storable font, and encoding that font gives the file back. |
| Font.FontRoundTrip | tools/fontconv/convert-fnt.js:13-41 | Decoding an encoded storable font gives the font back. |
| SpriteConv.BestMatch | tools/spriteconv/spriteconv.js:30-46 | The index is the first palette entry at minimal L1 distance from the colour. |
| SpriteConv.BestMatchUnique | tools/spriteconv/spriteconv.js:36-44 | There is only one best match, since ties go to the lowest index. |
| SpriteConv.ConvertImage | tools/spriteconv/spriteconv.js:10-28 | Each pixel is the best palette match of its RGB. The origin is the argument or the middle, and the transparent colour is the bottom-left pixel's. |
| Framebuffer.FloorOnScreen | src/dosemu.js:137-145 | A point passes the clip test exactly when its floor is a pixel of the screen. |
| Framebuffer.ColourIndex | src/dosemu.js:141-143 | An index in 0..255 is kept; anything else becomes 201 (also lib/dosemu.mjs:105-107). |
| Framebuffer.PixelOfByte | src/dosemu.js:152-156 | Each byte of the buffer belongs to exactly one pixel. |
| Framebuffer.ByteOfPixel | src/dosemu.js:152-156 | Each byte of an on-screen pixel lies in the buffer and belongs to that pixel. |
| Framebuffer.PointWrite | src/dosemu.js:137-157 | An off-screen write changes nothing. An on-screen write sets the four bytes at 4·(⌊y⌋·320 + ⌊x⌋) to the colour and alpha 255 and keeps every other byte (also lib/dosemu.mjs:101-121). |
| Framebuffer.NoiseLevel | src/dosemu.js:133-135 | The stored strength is an integer in [1, 23]. |
| Framebuffer.NoiseStrength | lib/dosemu.mjs:246-247 | The strength is kept within [2, 23]. |
| Framebuffer.NoiseColourRange | lib/dosemu.mjs:246-253 | A noise pixel is a grey from 232 to 254, never the fallback colour. |
| Framebuffer.WholeBar | src/dosemu.js:189-195 | With whole-numbered corners, a bar paints exactly the integer points of [x1, x2] × [y1, y2]. |
| Framebuffer.RectangleOutline | src/dosemu.js:197-202 | With whole-numbered, ordered corners, a rectangle is the bar's outline; with x1 > x2, only its upright sides remain. |
| Framebuffer.CirclePoints | src/dosemu.js:245-266 | A circle covers exactly the eight symmetric images of the offsets it visits, in one colour. |
| Framebuffer.TextBox | src/dosemu.js:179-186 | A string of n characters draws only inside its charWidth·n × charHeight box, in the text colour. |
| Framebuffer.BackTextOrigin | src/dosemu.js:167-178 | "right" ends the text at x; "center" centres it on (x, y). |
| Framebuffer.FrontTextOrigin | lib/dosemu.mjs:131-142 | Centring shifts x by (length + 1)·charWidth / 2 and y by charHeight / 2. |
| Framebuffer.TextOriginsDiffer | lib/dosemu.mjs:131-142 | The two versions agree except when centring, where the later one starts half a character further left. |
| Framebuffer.ImageSkips | src/dosemu.js:300-311 | A blit never draws a transparent pixel, and in ghost mode it draws only where i + j is even. |
| Framebuffer.NoiseCoversScreen | lib/dosemu.mjs:246-253 | Noise covers every pixel, and with draws in [0, 1) every pixel is a grey. |
| Framebuffer.Screen.constructor | src/dosemu.js:33 | A fresh screen has every byte zero and noise strength 5. |
| Framebuffer.Screen.SetNoiseStrength | src/dosemu.js:133-135 | The strength becomes `NoiseLevel(value)`, and the buffer is kept. |
| Framebuffer.Screen.PutPixel | src/dosemu.js:137-157 | The buffer becomes the old one painted at the clipped point with the index's colour (also putPixel, lib/dosemu.mjs:101-121). |
| Framebuffer.Screen.BarLine | src/dosemu.js:190-194 | One line of a bar paints the points x1, x1 + 1, .. up to x2 at its height, over the lines before it. |
| Framebuffer.Screen.Bar | src/dosemu.js:189-195 | A bar paints the points (x1 + i, y1 + j) up to (x2, y2), each on the pixel it rounds down to, and nothing when empty (also lib/dosemu.mjs:153-159). |
| Framebuffer.Screen.Rectangle | src/dosemu.js:197-202 | A rectangle paints its four bars, top, left, right and bottom (also lib/dosemu.mjs:161-166). |
| Framebuffer.Screen.PlotOctants | src/dosemu.js:250-257 | One circle step paints the eight symmetric pixels of its offset. |
| Framebuffer.Screen.Circle | src/dosemu.js:245-266 | The buffer is the octant images of the visited offsets painted over the old one. The offsets are exactly `MidpointWalk(r)`: the walk from (0, r) with decision value 3 − 2r that stops once i passes j. They have the shape `MidpointOffsets` and there are none exactly when r < 0 (also lib/dosemu.mjs:209-230). |
| Framebuffer.MidpointFromShape | src/dosemu.js:249-265 | The walk from (i, j) visits (i, j), (i + 1, j1), … with each second coordinate between the first and j, dropping by 0 or 1 per step, and is empty exactly when i > j. |
| Framebuffer.MidpointWalkShape | src/dosemu.js:246-265 | The walk for radius r starts at (0, r), has (k, j_k) with k ≤ j_k ≤ r at step k, and is empty exactly when r < 0. |
| Framebuffer.Screen.DrawGlyph | src/dosemu.js:180-184 | One character paints its glyph's set pixels from its cell's corner. |
| Framebuffer.Screen.DrawString | src/dosemu.js:179-186 | The characters are painted cell after cell, each charWidth further right. |
| Framebuffer.Screen.DrawText | src/dosemu.js:167-187 | The string is painted from `BackTextOrigin`. |
| Framebuffer.Screen.Text | lib/dosemu.mjs:131-151 | The string is painted from `FrontTextOrigin`. |
| Framebuffer.Screen.BlitAt | src/dosemu.js:303-310 | Every opaque pixel (on an even square in ghost mode) is painted in its colour at its offset from (x0, y0). |
| Framebuffer.Screen.DrawImage | src/dosemu.js:300-311 | The sprite is blitted with its origin at (x, y) (also lib/dosemu.mjs:264-275, without ghost mode; drawSprite and sprite call it). |
| Framebuffer.Screen.DrawNoise | lib/dosemu.mjs:246-253 | Every pixel is painted with the grey of its draw, at the clamped strength. |
| Sound.SanitizeWaveForm | lib/dosemu-sound.mjs:45-50 | A supported wave form is kept; anything else becomes "sine". |
| Sound.Advance | lib/dosemu-sound.mjs:52-66 | Time grows by dt. The note index advances by at most one, only once the note's duration is exceeded, never past the end; a new note's time is zero. |
| Sound.Play | lib/dosemu-sound.mjs:52-66 | Over many updates the note index never decreases and never passes the end. |
| Sound.PlayNoteByNote | lib/dosemu-sound.mjs:52-65 | With steps longer than any note, each update moves on by exactly one note. |
| Sound.ResetLoops | lib/dosemu-sound.mjs:78-80 | A positive count drops by one; zero and negative counts stay. |
| Sound.LoopsAfterValue | lib/dosemu-sound.mjs:78-80 | After k resets, a count of n ≥ 0 is max(n - k, 0), and a negative count is unchanged. |
| Sound.PlayCount | lib/dosemu-sound.mjs:68-80 | After m resets the counter is zero exactly when loops ≥ 0 and m ≥ max(loops, 1). So loops ≥ 1 plays `loops` times, 0 plays once, and a negative count never runs out. |
| Sound.Player.constructor | lib/dosemu-sound.mjs:29-43 | A new player has a sanitized wave form, is reset to its first note and has not finished. |
| Sound.Player.Reset | lib/dosemu-sound.mjs:78-86 | The index and time become zero, the frequency is the first note's, and the loop counter is reset. |
| Sound.Player.Update | lib/dosemu-sound.mjs:52-66 | The cursor advances as `Advance` says; the frequency follows a new note, and `ended` reports moving past the last note. |
| Sound.Player.CleanUp | lib/dosemu-sound.mjs:88-95 | The player is stopped. |
| Sound.Player.LoopOrStop | lib/dosemu-sound.mjs:68-76 | A non-zero loop counter restarts the sequence; otherwise the player stops. |
| Sound.LiveMembers | lib/dosemu-sound.mjs:157-165 | The players kept are exactly those not finished. |
| Sound.LiveAppend | lib/dosemu-sound.mjs:157-165 | Pruning keeps the order of the players that remain. |
| Sound.SpliceStep | lib/dosemu-sound.mjs:158-164 | One turn of the update loop keeps or splices out one player. |
| Sound.LiveKeepsAll | lib/dosemu-sound.mjs:17 | Nothing sets `finished`, so when no player has finished none is dropped. |
| Sound.LiveDistinct | lib/dosemu-sound.mjs:157-165 | Pruning a list without repetitions gives a list without repetitions. |
| Sound.SoundEngine.constructor | lib/dosemu-sound.mjs:97-104 | A new engine has no players. |
| Sound.SoundEngine.Sound | lib/dosemu-sound.mjs:134-138 | A fresh player is appended with the sequence, a sanitized wave form and a loop counter of 0, so it plays once. |
| Sound.SoundEngine.Loop | lib/dosemu-sound.mjs:147-151 | A fresh player is appended with the loop counter already reset once from `times`. |
| Sound.SoundEngine.UpdatePlayer | lib/dosemu-sound.mjs:158-164 | One player is updated and spliced out if it has finished. |
| Sound.SoundEngine.TunePlayer | lib/dosemu-sound.mjs:159 | One player's update advances its cursor and sets its frequency by `FrequencyAfter`; every other player is left as it was. |
| Sound.SoundEngine.SplicePlayer | lib/dosemu-sound.mjs:160-163 | The player stays in the list unless it has finished; the list so far is the unfinished players of the original list, in order. |
| Sound.SoundEngine.Update | lib/dosemu-sound.mjs:157-165 | Every player advances as `Advance` says, and the list becomes exactly the unfinished players, in order. Nothing is dropped when none has finished. Each player that moved on to a note inside its sequence takes that note's frequency; any other keeps its frequency (`FrequencyAfter`). |

## Left out

- Browser plumbing is not modelled: `init`, canvas creation, the console, the unmute button, screen refresh, the mouse and key handlers. The keyboard is a parameter (`Keys`).
- Frame loops are not modelled: main.js, main.mjs and index.js, plus the hello-world, mario, mouse-draw and palette demos.
- `drawLine` / `line` are not modelled, because their sloped branch works with floating-point slopes.
- `clearScreen` and `drawBBox` are not modelled: the first is random noise, the second debug drawing.
- Framebuffer.Screen.PutPixel: the RGB written is the palette colour. The random noise that drawPixel (src/dosemu.js:146-151) and putPixel (lib/dosemu.mjs:110-115, `buildPixelRGBNoise`) add is not modelled, because it is random. Nor is the rounding or clamping of the noisy channels. The colour payload is abstract.
- Randomness is parameters: the AI's `Math.random` draws are `Draws` values, and `drawNoise` takes a sequence of draws. Scenario.Update takes one `Draws` per enemy.
- Collision.CheckCollision: `Math.sqrt` is the parameter `norm`, required to satisfy `IsNorm(norm, dX, dY)`. Game.Move, Game.TankMove and Game.BulletMove share this requirement.
- AI.DecisionCases: the distance to the player is compared squared, since `Math.sqrt` is monotone.
- Numbers are exact reals. Floating-point rounding is not modelled. NaN is kept only where the source produces it: the collision comparator, and the motion factor of a zero move.
- entity.mjs and bullet-entity.mjs, imported by the scenarios/tanks/*.mjs files, are not part of this model; they are taken to be examples/tanks/entity.js and bullet-entity.js. src/dosemu-bbox.js is not part of this model either; it is taken to be lib/dosemu-bbox.mjs.
- Entities.Tank.HandleCollision: a brick is forwarded to the controller's `handleBrickCollision`, whose body is empty, so it changes nothing.
- The base `Entity` throws from `getType` and `getBoundingBox`. That is not modelled: entities are the closed union of tanks, bullets and bricks.
- The human controller (examples/tanks/human-controller.js) and controller.abstract.js are not modelled. A player's update only advances its fire timer.
- Rendering is not modelled: `draw`, `drawHealthBar` and `drawDebug`. Nor are building the sprite collections and sound sequences, the shot's sound, or `consoleOut`.
- EarlyTanks.EarlyMove: the earlier `checkCollision` (scenarios/tanks.mjs:216-248) only logs what it finds, so the move is made in full. Its grid window is Collision.WindowOf.
- EarlyTanks.TickEnemies: per-enemy timers are stated only for an enemy list without repetitions, which placement always produces.
- Placement.PlaceEntities: it requires a sprite set for every enemy code and a brick shape for every brick code the map uses. The source would store `undefined` and fail at the first `getBoundingBox`.
- Collision.GetNearestCollision: it requires a placed player. With no player and tank collisions enabled, the source throws at the player's bounding box. With tank collisions disabled the source does not throw, but the game only moves entities once the map has placed the player. Collision.CheckCollision and Game.Move share this requirement.
- Framebuffer.Screen.DrawText: it requires `Printable`: a font size, and a glyph with at least `charHeight` lines for every character. For any other character the source throws when it reads the missing glyph or line.
- Framebuffer.MidpointFrom: `i << 2` is taken as 4·i. The 32-bit shift differs only once i exceeds 2^29, for radii far larger than any screen.
- Framebuffer.Screen.Text: it requires `Printable` for the same reason as DrawText; the source throws on a missing glyph or glyph line.
- AI.ExecutePlannedAction: it states the move's travel, collider and harmlessness, not which outcome the check determines. Game.TankMove, which carries out the move, states that.
- AI.FollowPlan: through ExecutePlannedAction, it does not state which outcome the collision check determines for the planned move.
- AI.AIUpdate: through FollowPlan, it does not state which outcome the collision check determines for the planned move.
- AI.TankUpdate: through AIUpdate, it does not state which outcome the collision check determines for the planned move.
- Midi.MergeTracks: it states a merge that keeps each track's order, is a permutation, and is sorted for sorted tracks. It does not name the one merge the loop picks, where ties go to the lowest track. Midi.PickHead states that choice for each step.
- Sprites.RotateSprite: it requires `times > 0` and `times % 4 != 0`. For other counts the source's recursion never reaches 1 and does not end.
- Midi.ConvertMidi: it requires at least one track, because the source reads `tracks[0]` and throws otherwise. Reading the MIDI file, writing the output and the parser's fields are not modelled.
- SpriteConv.ConvertImage: it requires a height of at least 1, because the source reads `lines[h - 1]` and throws otherwise. PNG decoding, reading the palette file, `process.argv` and writing the output are not modelled; the parsed origin arguments are parameters.
- Font.ConvertFont: reading the `.fnt` file and writing the output are not modelled.
- Sound.Player.constructor: it requires a non-empty sequence, because `reset` reads the first note.
- Sound.SoundEngine.Sound: it requires a non-empty sequence, because the new player's `reset` reads the first note, and the source throws on an empty one.
- Sound.SoundEngine.Loop: it requires a non-empty sequence for the same reason as Sound.
- Sound.Player.Update: gain ramps and the `setTimeout` that schedules `loopOrStop` are left to the caller, which is told by `ended`. So are `console.log`, `onFinishedCallback`, `init`, `unmute`, `setSoundStartedCallback` and the oscillator's start and stop.
