# Farmasaurus tile world — a Dafny model

Farmasaurus is a browser multiplayer game on an 8000 × 8000 isometric tile
world. An authoritative server runs a 20 Hz tick. Each tick it:

- moves players one tile at a time along the direction they hold;
- resolves melee combat against enemies;
- runs the enemy AI (chase, return to spawn, wander);
- sends every client a state snapshot.

The terrain is generated from a seeded noise function. It decides which
tiles are walkable and how high each tile is; a step may climb at most
four height units. The browser client predicts its own player's moves
with the same tests, so the character starts walking before the server
answers. It reconciles on a rejected move or on a large drift. An older
single-player prototype adds a character-state machine (idle, move,
hurt), a life component, an input component and chests.

This project models that core as pure functions over immutable data, one
module per source file:

| module | file | models |
|---|---|---|
| `Types`, `Constants` | types.dfy, constants.dfy | shared directions, their deltas, tile arithmetic, the game constants |
| `Terrain`, `Oracles` | terrain.dfy | the seeded generator, the biome ladder, elevation, the step-height rule; the `Oracle` that hands terrain to the simulation |
| `EntityManager` | entity_manager.dfy | enemies: occupancy, the walkability test, moves, AI, the tick pass, damage and death, respawn, snapshots |
| `PlayerManager` | player_manager.dfy | players: join and leave, input, attack targets, combat, the movement tick, snapshots |
| `GameLoop` | game_loop.dfy | the server tick that chains the passes above |
| `Prediction` | prediction.dfy | the client's move prediction, click targets, reconciliation, movement input and the per-frame step |
| `Keyboard` | keyboard.dfy | the client's WASD state and chat mode |
| `StateMachine` | state_machine.dfy | the prototype's queued state machine |
| `Life`, `InputComponent`, `Chest`, `Common` | life.dfy, input_component.dfy, chest.dfy, common.dfy | the prototype's components |
| `Character`, `CharacterStates` | character.dfy, character_states.dfy | the prototype's character object and its idle, move and hurt states |
| `Wrappers` | wrappers.dfy | `Option` |

Modelling choices:

- **Ids.** Entity ids are `PlayerId(n)` and `EnemyId(n)` rather than the
  strings `p<n>` and `e<n>`.
- **Tables.** Entity tables are sequences in insertion order, which is the
  iteration order of a JavaScript `Map`.
- **Randomness.** Every `Math.random()` the server draws is an explicit
  argument (`AiDraw`, `CombatDraw`, offsets and rolls).
- **Timers.** Every `setTimeout` and `delayedCall` becomes a separate
  operation that the caller applies when the delay has passed.
- **Server time.** Server timers are integer milliseconds; `TICK_MS` is
  exactly 50.
- **Client time.** Client timers are reals, because `deltaMS` is
  fractional.
- **Terrain.** The simulation sees terrain only through an
  `Oracle(walkable, elevation)`. `Oracles.OracleOf` builds the oracle
  from the noise, and the terrain lemmas speak about that construction.

Properties the model proves include:

- **Separation kept by the tick.** If no two live enemies share a tile
  and none stands on a player, the tick keeps it so
  (`GameLoop.UpdateKeepsApart`).
- **Prediction agrees with the server.** On the real terrain, the
  client's move check accepts exactly the unit steps the enemy move rule
  accepts (`Prediction.PredictionMatchesEnemyRule`).
- **Input numbering.** Input sequence numbers sent by the client are
  consecutive across any run of frames
  (`Prediction.SequenceNumbersConsecutive`).
- **One death per life.** Damage produces at most one death event per
  life of an enemy (`EntityManager.DeathOnlyOnce`).
- **Movement period.** A held direction moves a server player once
  every ⌈D/50⌉ + 1 ticks (`PlayerManager.HeldDirectionPeriod`).
- **Discrepancies shown by lemmas.** These document what the code does
  as written:
  - players ignore elevation (`GameLoop.PlayerIgnoresElevation`);
  - two players can step onto one tile in the same tick
    (`GameLoop.PlayersMayShareTile`);
  - the client checks only the lower world bound
    (`Prediction.ClientMissesUpperBound`).

## Model

| member | source | states |
|---|---|---|
| Types.Face | server/src/player-manager.ts:217-226 | a zero delta keeps the current facing; any other delta faces the direction whose DIR_DX/DIR_DY are the signs of the delta |
| Types.DirDx | shared/types.ts:14-17 | the column step is 0 exactly for UP and DOWN, +1 exactly for the three eastward directions and -1 for the three westward ones |
| Types.DirDy | shared/types.ts:18-21 | the row step is 0 exactly for LEFT and RIGHT, -1 exactly for the three northward directions and +1 for the three southward ones |
| Types.DeltaIsUnitStep | shared/types.ts:15-22 | every direction moves at most one tile on each axis and never stays put |
| Types.DeltaInjective | shared/types.ts:15-22 | no two directions share a delta |
| Types.IndexOf | server/src/entity-manager.ts:131 | the lookup reports none exactly when the id is absent from the id column, and otherwise the first position that holds it |
| Types.DeltaSurjective | shared/types.ts:15-22 | every one-tile step, the eight neighbours, is the delta of some direction |
| Types.DiagonalIffBothAxes | shared/types.ts:1-22 | the four compound directions are exactly those that move on both axes |
| Types.FaceRoundTrip | server/src/entity-manager.ts:284-293 | facing along a direction's own delta gives back that direction, so setDirection inverts DIR_DX/DIR_DY |
| Types.AllDirectionsComplete | server/src/entity-manager.ts:240-241 | the list the random step shuffles holds each of the eight directions exactly once |
| Types.ChebyshevBasics | server/src/entity-manager.ts:176 | the max-of-axes tile distance is symmetric and zero exactly between equal tiles |
| Terrain.JsRemModulus | shared/terrain.ts:7 | JavaScript `%` by 2147483647: the remainder takes the dividend's sign, is smaller than the modulus in magnitude, and is congruent to the dividend |
| Terrain.NextState | shared/terrain.ts:7 | for a non-negative state the step is the ordinary remainder of s·16807 by 2147483647; a negative state gives a remainder in (-2147483647, 0] |
| Terrain.States | shared/terrain.ts:4-10 | n calls of the generator yield n states |
| Terrain.NextStateRange | shared/terrain.ts:7 | a non-negative state steps to one in [0, 2147483646]; 0 is a fixed point; the step is multiplication by 16807 modulo 2147483647 |
| Terrain.ProductExactInDouble | shared/terrain.ts:7 | the product s·16807 of any reachable state stays below 2^53, so the source's double arithmetic computes it exactly |
| Terrain.StatesChain | shared/terrain.ts:5-8 | each state is the step of the one before it, the first being the step of the seed: the closure keeps `s` between calls |
| Terrain.StatesPrefix | shared/terrain.ts:4-10 | the first m states do not depend on how many more are drawn |
| Terrain.StatesInRange | shared/terrain.ts:4-10 | from a non-negative seed every state lies in [0, 2147483646] |
| Terrain.ZeroSeedIsFixed | shared/terrain.ts:4-10 | seed 0 yields the state 0 forever |
| Terrain.Biome | shared/terrain.ts:55-64 | the rung is decided by faded elevation alone: deep water exactly below 0.2, water exactly below 0.3, sand exactly in [0.3, 0.35), a grass kind exactly in [0.35, 0.55), forest or dirt exactly in [0.55, 0.7), rock exactly from 0.7; moisture only picks within a rung |
| Terrain.TileTypeAt | shared/terrain.ts:47-65 | a tile is water exactly when its edge-faded elevation is below 0.3, and rock exactly when it reaches 0.7 |
| Terrain.TerrainWalkable | shared/terrain.ts:68-71 | a tile is walkable exactly when it is not water, that is exactly when its faded elevation reaches 0.3 |
| Terrain.BiomeMonotone | shared/terrain.ts:55-64 | the biome ladder is ordered: higher faded elevation never lands on a lower rung (deep water, shallow water, sand, grass, dirt/forest, rock), whatever the moisture |
| Terrain.WalkableIffHighEnough | shared/terrain.ts:47-71 | a tile is walkable exactly when its faded elevation reaches 0.3, the lower end of sand |
| Terrain.BorderIsDeepWater | shared/terrain.ts:51-55 | on the outermost ring of the world the edge fade is 0 and the tile is deep water |
| Terrain.WalkableIsInterior | shared/terrain.ts:51-71 | with non-negative noise a walkable tile lies at least one tile inside every world edge |
| Terrain.Elevation | shared/terrain.ts:86-101 | the height is in 0..15 and is 0 exactly on water tiles |
| Terrain.ElevationMonotone | shared/terrain.ts:93-100 | between land tiles, higher faded elevation never gives a lower height |
| Terrain.RoundMonotone | shared/terrain.ts:99 | Math.round, as floor(x + 0.5), is monotone |
| Terrain.ElevationLipschitz | shared/terrain.ts:99-100 | between land tiles the height rises by at most 12 times the rise in faded elevation, plus 1 |
| Terrain.ElevationWalkable | shared/terrain.ts:128-130 | a step is allowed exactly when neither tile is more than STEP_HEIGHT = 4 above the other; standing still is always allowed |
| Terrain.ElevationWalkableProperties | shared/terrain.ts:128-130 | a step is allowed iff the heights differ by at most STEP_HEIGHT = 4; the relation is reflexive and symmetric |
| Terrain.WaterToLowLandInStep | shared/terrain.ts:86-90 | from a water tile (height 0) a step is allowed exactly onto tiles of height at most 4 |
| Oracles.OracleOf | shared/terrain.ts:68-101 | the oracle built from the noise answers walkability and height exactly as isTerrainWalkable and getTileElevation |
| Oracles.InStep | shared/terrain.ts:128-130 | a step the oracle allows neither climbs nor drops more than 4 height units, and staying on a tile is always allowed |
| Oracles.InStepAgrees | shared/terrain.ts:128-130 | the oracle's step test is isElevationWalkable |
| EntityManager.NewEnemy | server/src/entity-manager.ts:109-129 | a spawned enemy stands on its spawn tile, idle, wandering, without target, at full positive health, with a wander timer in [0, 2000) for a draw in [0, 1) |
| EntityManager.LiveTiles | server/src/entity-manager.ts:53-56 | a tile is listed iff some enemy with positive health stands on it |
| EntityManager.BuildOccupancy | server/src/entity-manager.ts:51-60 | a tile is occupied iff a live enemy or one of the given player tiles is on it |
| EntityManager.IsTileWalkable | server/src/entity-manager.ts:66-74 | an accepted tile lies in [1, 7998] on both axes, is unoccupied and walkable, and with a source tile is within step height of it; without a source tile these tests are also sufficient |
| EntityManager.WalkableRejections | server/src/entity-manager.ts:66-74 | each of the four tests rejects on its own (outside [1, 7998], occupied, water, a climb of more than 4 from the source); with no source tile, a free walkable interior tile is accepted |
| EntityManager.BoundsCheckRedundant | server/src/entity-manager.ts:66-74 | on non-negative noise the bounds test never decides: walkability is free, land and within step height |
| EntityManager.TryMove | server/src/entity-manager.ts:251-276 | a refused move changes nothing; an accepted one moves exactly by (dx, dy) onto a walkable free tile, records the old tile, starts a move with timer 0, faces the step and moves the enemy's mark in the occupancy set |
| EntityManager.TryMoveShape | server/src/entity-manager.ts:251-276 | a move by a delta in -1..1 changes the tile by at most one on each axis |
| EntityManager.DiagonalNeedsBothCardinals | server/src/entity-manager.ts:255-261 | an accepted diagonal move has both perpendicular cardinal neighbours walkable |
| EntityManager.AcceptanceDependsOnTile | server/src/entity-manager.ts:251-262 | whether a step is accepted depends only on the tile the enemy stands on, not on its AI state, timers or target |
| EntityManager.StepToward | server/src/entity-manager.ts:231-237 | the direct signed step is tried first, then its horizontal part, then its vertical part; the first accepted wins |
| EntityManager.SignStepApproaches | server/src/entity-manager.ts:231-237 | a step that moves each axis by its sign toward the goal, or not at all, and moves at least one axis, brings no axis farther from the goal and one nearer, and never raises the Chebyshev distance |
| EntityManager.CandidatesApproach | server/src/entity-manager.ts:231-237 | each of the three tries of stepToward that moves at all approaches the target |
| EntityManager.StepTowardApproaches | server/src/entity-manager.ts:231-237 | stepToward moves exactly when one of its three tries is accepted, and every step it takes approaches the target without raising the Chebyshev distance |
| EntityManager.TowardAcceptedOnTile | server/src/entity-manager.ts:231-237 | whether stepToward can move depends only on the enemy's tile |
| EntityManager.SomeAcceptedOnTile | server/src/entity-manager.ts:239-249 | whether a random step can move depends only on the enemy's tile |
| EntityManager.Swap | server/src/entity-manager.ts:244 | swapping two entries permutes the list and exchanges exactly those entries |
| EntityManager.ShuffleDown | server/src/entity-manager.ts:242-245 | the Fisher–Yates pass returns a permutation of its input |
| EntityManager.ShuffledDirections | server/src/entity-manager.ts:240-245 | the shuffled list has eight entries and contains every direction |
| EntityManager.FirstAcceptedAfterRejected | server/src/entity-manager.ts:246-248 | when the first direction is refused, the outcome the rest of the list chooses is the first accepted of the whole list |
| EntityManager.TryInOrder | server/src/entity-manager.ts:246-248 | an enemy moves iff some direction in the list is accepted, and then by the first accepted one |
| EntityManager.CoveringOrderMoves | server/src/entity-manager.ts:239-249 | trying a list that contains every direction moves iff some direction is accepted |
| EntityManager.StepRandom | server/src/entity-manager.ts:239-249 | a random step moves iff some direction is accepted, whatever the shuffle draws |
| EntityManager.Closest | server/src/entity-manager.ts:174-180 | no target iff every player is beyond aggro range; otherwise a player in range at minimal distance, the earliest one on ties |
| EntityManager.Pursue | server/src/entity-manager.ts:182-189 | the enemy chases and targets the chosen player; within one tile it does not move and only turns to face the player (setDirection of the signs of the offset); farther away it takes stepToward toward the player, so it moves exactly when one of the three tries is accepted, and a step always approaches the player |
| EntityManager.Retreat | server/src/entity-manager.ts:191-195 | the enemy returns without a target; it moves exactly when one of the three stepToward tries toward spawn is accepted; a step approaches spawn, never raises the distance to it and faces the step; otherwise nothing else changes |
| EntityManager.Roam | server/src/entity-manager.ts:196-203 | the enemy wanders without a target; while its wander timer is positive nothing else changes; once it has run out the timer restarts at 2000 + jitter and the enemy takes the random step, which moves exactly when some direction is accepted |
| EntityManager.RunAI | server/src/entity-manager.ts:170-205 | the wander timer and a positive attack cooldown drop by one tick; the enemy chases iff some player is within aggro range, and then it behaves as Pursue toward the earliest closest player; otherwise it returns iff it is more than 12 tiles from spawn, moving exactly when a step toward spawn is accepted and only toward it; otherwise it wanders, moving exactly when the timer ran out and some direction is accepted, the timer then restarting at 2000 + jitter |
| EntityManager.UpdateEnemy | server/src/entity-manager.ts:207-228 | a dead enemy is skipped; an idle live enemy runs the AI; a move still in progress only advances its timer by a tick; a finished move re-runs the AI from idle at once, a new step keeping the excess time on its timer and no new step leaving the enemy idle with timer 0; any step lands on a free neighbouring tile and moves its mark in the occupancy set |
| EntityManager.UpdateFrom | server/src/entity-manager.ts:207-229 | the rest of the pass from position k keeps every enemy's id and health, and leaves dead enemies and those before k untouched |
| EntityManager.UpdateAll | server/src/entity-manager.ts:207-229 | the enemy pass keeps the id column, every health value and every dead enemy |
| EntityManager.PassOccShift | server/src/entity-manager.ts:207-229 | once the enemy at position k has been updated, the occupancy the pass reaches at any later position is the same whether counted from k or from k + 1 on the updated table |
| EntityManager.PassOccShiftAll | server/src/entity-manager.ts:207-229 | the same for every later position at once |
| EntityManager.UpdateFromOcc | server/src/entity-manager.ts:207-229 | the pass from position k ends with the occupancy left by the last update, each enemy in table order seeing what the ones before it left |
| EntityManager.UpdateFromEnemies | server/src/entity-manager.ts:207-229 | in the pass from position k, enemy i is the UpdateEnemy of the original entry against the occupancy the enemies from k to i - 1 left |
| EntityManager.UpdateAllInOrder | server/src/entity-manager.ts:207-229 | updateAll visits the enemies in table order: entry i is UpdateEnemy of the old entry against the occupancy left by entries 0 to i - 1, and the final occupancy is what the last one left |
| EntityManager.UpdateEnemyKeepsSeparated | server/src/entity-manager.ts:264-272 | one enemy's update keeps live enemies apart from each other and from players, with the occupancy set covering them |
| EntityManager.UpdateFromKeepsSeparated | server/src/entity-manager.ts:207-229 | the rest of the pass keeps that separation |
| EntityManager.UpdateAllKeepsSeparated | server/src/entity-manager.ts:51-60 | starting from occupancy built from the current positions, the enemy pass keeps enemies apart from each other and from the players |
| EntityManager.Find | server/src/entity-manager.ts:131 | the lookup finds the first enemy with the id, or reports none has it |
| EntityManager.DamageEnemy | server/src/entity-manager.ts:133-149 | a missing or dead enemy is unaffected and nothing is sent; otherwise health drops by the damage, clamped at 0, a damage event is sent, and a death event follows exactly when health reached 0 |
| EntityManager.DeathCount | server/src/entity-manager.ts:143-149 | the count is zero iff no event is a death |
| EntityManager.DeathCountAppend | server/src/entity-manager.ts:143-149 | deaths in concatenated event lists add up |
| EntityManager.FindAfterHit | server/src/entity-manager.ts:133-136 | damage does not change where any id is found |
| EntityManager.FindSameIds | server/src/entity-manager.ts:131 | tables with the same ids in the same order answer every lookup alike |
| EntityManager.HitSeries | server/src/entity-manager.ts:133-167 | a series of hits keeps the table's size |
| EntityManager.DeathOnlyOnce | server/src/entity-manager.ts:135-149 | any series of hits on one enemy produces at most one death event, and none if it was already dead |
| EntityManager.RespawnSpot | server/src/entity-manager.ts:153-158 | the respawn tile is the spawn tile, or the first unoccupied candidate; it is unoccupied whenever some candidate is |
| EntityManager.Respawn | server/src/entity-manager.ts:150-165 | only the respawning enemy changes: full health, idle, wandering, without target, on the chosen spot |
| EntityManager.RespawnNearSpawn | server/src/entity-manager.ts:155-156 | with offsets floor((r - 0.5) × 6) in -3..2 the respawn lands within three tiles of spawn |
| EntityManager.Progress | server/src/entity-manager.ts:299 | move progress is timer/duration capped at 1, and 1 when idle |
| EntityManager.EnemyStateOf | server/src/entity-manager.ts:298-309 | a snapshot copies the enemy's id, kind, tile, origin, facing and health; it is moving iff the enemy is, shows the walk animation exactly then, and reports progress at most 1 (at least 0 for a non-negative timer), exactly 1 when standing |
| EntityManager.EnemyStates | server/src/entity-manager.ts:295-312 | the snapshot lists exactly the live enemies, each with progress at most 1 and the walk animation exactly when moving |
| PlayerManager.FindPlayer | server/src/player-manager.ts:70 | the lookup finds the first player with the id, or reports none has it |
| PlayerManager.FindPlayerSameIds | server/src/player-manager.ts:70 | rosters with the same ids in the same order answer every lookup alike |
| PlayerManager.DecimalString | server/src/player-manager.ts:40 | a number prints as a non-empty run of decimal digits that reads back as the number, with no leading zero, one digit exactly below 10 |
| PlayerManager.JoinName | server/src/player-manager.ts:46 | a non-empty name is kept; an empty one becomes `Playerp` followed by the decimal digits of the counter, which read back as it |
| PlayerManager.AddPlayer | server/src/player-manager.ts:39-65 | a join appends one player with the next id, placed at the world centre plus the drawn offset, idle, facing down, at full health, with no input, target or attack |
| PlayerManager.AddPlayerKeepsWellFormed | server/src/player-manager.ts:31-65 | joins keep ids unique and below the counter |
| PlayerManager.Without | server/src/player-manager.ts:67 | removal keeps exactly the players with another id |
| PlayerManager.RemovePlayer | server/src/player-manager.ts:67 | after removal the id is unknown and everyone else stays |
| PlayerManager.WithoutKeepsUnique | server/src/player-manager.ts:67 | removal keeps ids unique |
| PlayerManager.RemovePlayerKeepsWellFormed | server/src/player-manager.ts:67 | removal keeps the roster well formed |
| PlayerManager.HandleInput | server/src/player-manager.ts:69-74 | input from a known living player sets its queued direction and acknowledged sequence number; nobody else changes |
| PlayerManager.InputLastWriteWins | server/src/player-manager.ts:69-74 | of two inputs the later one wins |
| PlayerManager.InputIdempotent | server/src/player-manager.ts:69-74 | repeating an input changes nothing more |
| PlayerManager.HandleAttack | server/src/player-manager.ts:76-81 | a known living attacker gets exactly its target set to the requested id; unknown or dead requesters change nothing, and no other player changes |
| PlayerManager.HitDamage | server/src/player-manager.ts:133-134 | damage is attack + roll - 1 - defense, but at least 1 |
| PlayerManager.HitDamageRange | server/src/player-manager.ts:133-134 | for a roll in 0..3 damage lies between 1 and max(1, attack + 2 - defense) |
| PlayerManager.CombatTurn | server/src/player-manager.ts:87-136 | a dead or targetless player stops attacking; during cooldown it only counts down; a missing or dead target is dropped; a live target out of melee range is kept but the player stops attacking; events occur exactly when a live target is within melee range, and then the player faces it, attacks and restarts its cooldown, a miss broadcasting a miss event and a hit damaging the target by HitDamage; without events the enemy table is unchanged |
| PlayerManager.AttackFacesTarget | server/src/player-manager.ts:114-116 | an attacking player faces its target |
| PlayerManager.CombatFrom | server/src/player-manager.ts:83-137 | for any per-player turn, the loop from player k keeps earlier players; player i becomes its turn against the enemy table the players from k to i - 1 left; the final table and the events, concatenated in turn order, are what those turns produced |
| PlayerManager.EnemiesAtShift | server/src/player-manager.ts:87-136 | after the first player's turn, the enemy table the rest of the loop reaches at any later player is the one the whole loop reaches |
| PlayerManager.EventsAtShift | server/src/player-manager.ts:87-136 | the events of the loop are the first player's events followed by those of the rest of the loop |
| PlayerManager.CombatAtShiftAll | server/src/player-manager.ts:87-136 | both facts at once for every later player |
| PlayerManager.CombatTurnKeepsTable | server/src/player-manager.ts:114-135 | one attack keeps the enemy table's size, ids and tiles and leaves dead enemies alone |
| PlayerManager.CombatKeepsTable | server/src/player-manager.ts:83-137 | however many players have acted, the enemy table keeps its size, ids and tiles, and dead enemies are untouched |
| PlayerManager.ProcessCombat | server/src/player-manager.ts:83-137 | each player, in table order, takes its CombatTurn against the enemy table the earlier turns left; the resulting table and the events in turn order are the loop's; player ids, tiles and deaths, enemy ids and tiles and dead enemies are kept |
| PlayerManager.UpdatePlayer | server/src/player-manager.ts:139-172 | a move in progress advances by one tick and completes once the timer reaches the duration; an idle player with a queued direction faces it and moves iff the target tile is walkable |
| PlayerManager.UpdatePlayers | server/src/player-manager.ts:139-173 | the pass updates every player on its own |
| PlayerManager.StepCompletes | server/src/player-manager.ts:143-149 | a move completes after exactly the ticks needed to reach the duration, and nothing else changes |
| PlayerManager.HeldDirectionPeriod | server/src/player-manager.ts:143-171 | with a direction held and the way free, the next step starts ⌈D/50⌉ + 1 ticks after the last one started |
| PlayerManager.TicksSplit | server/src/player-manager.ts:139-173 | m + n ticks are m ticks followed by n ticks |
| PlayerManager.PlayerStateOf | server/src/player-manager.ts:175-194 | the animation is DEAD, else ATTACK, else WALK while moving, else IDLE; progress is in [0, 1] and 1 when idle |
| PlayerManager.GetPlayerState | server/src/player-manager.ts:175-177 | a snapshot exists iff the player does |
| PlayerManager.AllPlayerStates | server/src/player-manager.ts:196-198 | one snapshot per player, in roster order |
| PlayerManager.Positions | server/src/player-manager.ts:200-204 | exactly the living players' ids and tiles; a lone player contributes its own position iff alive |
| PlayerManager.PositionsAppend | server/src/player-manager.ts:200-204 | the filter keeps table order: the positions of two tables one after the other are the first's followed by the second's |
| PlayerManager.PlayerTiles | server/src/player-manager.ts:206-210 | exactly the living players' tiles |
| PlayerManager.FirstPlayerOn | server/src/player-manager.ts:206-210 | every tile of the list is the tile of a living player, namely the earliest such player in the table |
| PlayerManager.TilesArePositions | server/src/player-manager.ts:200-210 | the tile list is the position list without ids |
| GameLoop.PlayerWalkable | server/src/game-loop.ts:54 | players are moved with the walkability test without a source tile |
| GameLoop.MovePlayers | server/src/game-loop.ts:50-54 | every player is updated against the occupancy built before the player pass, and the player ids are kept |
| GameLoop.Snapshots | server/src/game-loop.ts:68-81 | each player receives the tick, all player and enemy snapshots and its own acknowledged sequence number |
| GameLoop.Update | server/src/game-loop.ts:47-83 | a tick advances the counter; the players and broadcast events are those of combat run on the moved players; both tables keep their sizes and ids; every player gets the snapshot of the new world |
| GameLoop.AiSeesMovedPlayers | server/src/game-loop.ts:50-66 | the occupancy handed to the enemy pass holds every live player's post-move tile; the tick's enemies and occupancy are the enemy pass over the enemies combat left, where enemy i is updated against the live post-combat positions and the occupancy the enemies before it left |
| GameLoop.KilledEnemiesSkipAi | server/src/game-loop.ts:59-66 | an enemy killed in combat is not moved by the AI in the same tick |
| GameLoop.SameTiles | server/src/game-loop.ts:56-57 | combat does not change the players' tile list |
| GameLoop.PlayerLandsFree | server/src/game-loop.ts:53-54 | a player either stays or lands on a tile that was free |
| GameLoop.NoPlayerLandsOn | server/src/game-loop.ts:50-54 | a tile in the occupancy set that held no live player before the player pass holds none after it |
| GameLoop.MoveKeepsApart | server/src/game-loop.ts:50-57 | the player pass keeps enemies off player tiles and apart from each other |
| GameLoop.SeparatedBeforeAi | server/src/game-loop.ts:56-66 | after combat, the rebuilt occupancy separates the enemies as the AI pass requires |
| GameLoop.CombatAndAiKeepApart | server/src/game-loop.ts:56-66 | if enemies are apart before combat, they are still apart from each other and from the players after combat and the enemy pass |
| GameLoop.ApartFromSeparated | server/src/game-loop.ts:65-66 | separation under an occupancy set gives enemies apart from the players |
| GameLoop.UpdateKeepsApart | server/src/game-loop.ts:47-83 | if no two live enemies share a tile and none stands on a player, the whole tick keeps it so |
| GameLoop.RespawnDue | server/src/entity-manager.ts:150-165 | a respawn timer firing touches only the enemy table, keeping its size and ids |
| GameLoop.PlayerPassClimbs | server/src/game-loop.ts:50-54 | the player pass moves a player walking right from (10, 10) onto the cliff tile (11, 10) |
| GameLoop.PlayerIgnoresElevation | server/src/game-loop.ts:54 | a player climbs onto a tile 10 units higher, which the enemy test would refuse |
| GameLoop.PlayersMoveOnlyInPlayerPass | server/src/game-loop.ts:52-67 | combat and the enemy pass leave every player on the tile the player pass gave it |
| GameLoop.PlayerPassShares | server/src/game-loop.ts:50-54 | the player pass moves two players walking toward each other onto the same tile between them |
| GameLoop.PlayersMayShareTile | server/src/game-loop.ts:53-54 | two players stepping toward each other both land on the same tile in one tick |
| Prediction.Occupied | client/src/main.ts:31-39 | a tile is occupied iff some enemy or some remote player stands on it |
| Prediction.OccupiedSet | client/src/main.ts:31-39 | a tile is in the set iff an enemy or a remote player stands on it |
| Prediction.CanPredictMove | client/src/main.ts:42-55 | a predicted step lands on a tile with x and y at least 1 that is walkable, within step height of the origin and unoccupied |
| Prediction.ResolveMoveDirection | client/src/main.ts:58-65 | the requested step is used when possible; a diagonal falls back to its horizontal, then vertical part; nothing is returned iff no candidate passes |
| Prediction.TerrainBordered | shared/terrain.ts:51-71 | on non-negative noise every walkable tile lies strictly inside the world |
| Prediction.TileTestsAgree | client/src/main.ts:42-55 | on a bordered terrain the client's per-tile test equals the server's isTileWalkable from the same tile |
| Prediction.PredictionMatchesEnemyRule | client/src/main.ts:41-55 | on a bordered terrain the client predicts a unit step exactly when the server's enemy move rule would take it |
| Prediction.PredictionImpliesPlayerRule | client/src/main.ts:42-55 | on a bordered terrain every predicted step passes the server's test for players |
| Prediction.ClientMissesUpperBound | client/src/main.ts:45 | with no terrain border the client accepts a step onto x = 7999 that the server refuses |
| Prediction.ScanRing | client/src/main.ts:71-78 | the ring scan returns a walkable tile at exactly the ring's distance, or reports every remaining border tile blocked |
| Prediction.OnRing | client/src/main.ts:73 | every tile is on the border of the ring at its distance |
| Prediction.Rings | client/src/main.ts:70-80 | the first walkable tile of rings r..8, with nothing walkable closer from r on |
| Prediction.FindNearestWalkableTile | client/src/main.ts:68-81 | a walkable target is kept; otherwise a nearest walkable tile within 8 is returned, and none iff nothing within 8 is walkable |
| Prediction.DirectionToward | client/src/main.ts:108-121 | no direction iff the tiles are equal; otherwise the direction of the signs of the difference |
| Prediction.TowardAgreesWithFacing | client/src/main.ts:108-121 | the client's direction toward a tile is the one the server's setDirection picks |
| Prediction.OnMoveAck | client/src/main.ts:249-265 | an accepted ack changes nothing; a rejection snaps the prediction to the server tile, idle, with no latched direction or click target |
| Prediction.RejectIdempotent | client/src/main.ts:251-263 | handling a rejection twice is the same as once |
| Prediction.CorrectDrift | client/src/main.ts:392-405 | a drift of at most 3 tiles is left alone, a larger one snaps to the server tile; afterwards the drift is at most 3 |
| Prediction.DriftSettles | client/src/main.ts:392-405 | correcting twice is the same as once |
| Prediction.GetMovementInput | client/src/main.ts:487-536 | keys win and clear the click target; then the held mouse; else a click target steers toward it, running with hysteresis (start beyond 3, stop at 1); reaching it clears it |
| Prediction.Send | client/src/main.ts:581-583 | when connected one input is sent with the next sequence number; otherwise nothing |
| Prediction.Arrive | client/src/main.ts:550-610 | before the duration only the timer grows; on arrival the result is Chain from the arrival tile with the elapsed time, so it keeps the excess time when it steps, and stops in place with timer 0 otherwise; at most one input, numbered next |
| Prediction.ArriveIsChain | client/src/main.ts:550-560 | a completed step's arrival is the chain from the arrival tile, the arrival tile becoming the origin |
| Prediction.Chain | client/src/main.ts:562-608 | on arrival, a step that is taken is one the prediction allows from the arrival tile, with the excess time over the completed duration on its timer; a stop stays on the tile with timer 0 and no direction; each outcome sends at most one input with the next sequence number |
| Prediction.ChainLatches | client/src/main.ts:562-583 | when the input resolves to a delta, the client walks that delta from the arrival tile with the input's direction, run flag and duration, keeps the excess time, and sends that direction with the next sequence number when connected |
| Prediction.ChainStops | client/src/main.ts:584-608 | when there is no input or it resolves to nothing, the client goes idle with timer 0, no direction and no click target, and sends a stop input with the next sequence number when connected |
| Prediction.ChainOutcome | client/src/main.ts:562-608 | both cases together: the arrival latches the resolved step or stops |
| Prediction.Go | client/src/main.ts:565-579 | a step starts exactly when the client rules resolve the direction; the new tile is the old one plus the resolved delta, and the requested step itself when it is predictable; the old tile becomes the origin and the direction, run flag and matching duration are latched with the given timer |
| Prediction.Start | client/src/main.ts:614-640 | from idle a step that is taken starts with timer 0 and is one the prediction allows; otherwise the tile stays and nothing is sent; at most one input goes out, with the next sequence number |
| Prediction.StartLatches | client/src/main.ts:614-634 | when the input resolves to a delta, the idle client walks it from its tile with timer 0, latching direction, run flag and duration, and sends that direction with the next sequence number when connected |
| Prediction.StartStays | client/src/main.ts:635-638 | when the input resolves to nothing, only the click target is dropped and nothing is sent |
| Prediction.StartOutcome | client/src/main.ts:614-640 | both cases together |
| Prediction.NumberedAppend | client/src/main.ts:582-606 | consecutive numbered batches concatenate into one consecutive batch |
| Prediction.Frame | client/src/main.ts:538-640 | a frame sends at most two inputs, numbered consecutively from the counter, which advances by the number sent; the tile changes by at most one, and only by a step the prediction allows from the old tile |
| Prediction.FrameStarts | client/src/main.ts:614-640 | a joined idle client's frame latches the resolved step with timer 0, or drops the click target and sends nothing |
| Prediction.FrameArrives | client/src/main.ts:550-610 | a moving client's frame is its arrival unless the arrival stops and a fresh start follows |
| Prediction.FrameIsChain | client/src/main.ts:550-610 | once the step completes, the frame is the chain from the arrival tile unless the chain stops and a fresh start follows |
| Prediction.FrameChains | client/src/main.ts:550-610 | a frame that completes the step latches the step the input resolves to from the arrival tile, carrying the excess time and sending one numbered input when connected; with nothing resolved and not joined it stops and sends a stop input |
| Prediction.FrameOutcome | client/src/main.ts:538-640 | every frame: an idle unjoined client is unchanged; an idle joined one latches the resolved step with timer 0 or stays; a moving one only advances its timer before the duration, and on completion latches the resolved step with the excess time or stops |
| Prediction.SequenceNumbersConsecutive | client/src/main.ts:538-640 | across any run of frames the sent inputs are numbered consecutively from the starting counter, which ends at the count sent |
| Keyboard.Initial | client/src/input/keyboard.ts:11-12 | no key is held and chat is off |
| Keyboard.Set | client/src/input/keyboard.ts:22-34 | setting a key changes that key only |
| Keyboard.KeyDown | client/src/input/keyboard.ts:19-27 | a WASD press marks its key, except in chat mode; other keys are ignored |
| Keyboard.KeyUp | client/src/input/keyboard.ts:29-36 | a WASD release clears its key, in chat mode too; other keys are ignored |
| Keyboard.IsMoving | client/src/input/keyboard.ts:56-58 | moving iff some of W, A, S, D is held |
| Keyboard.GetDirection | client/src/input/keyboard.ts:43-58 | there is a direction iff some key is held |
| Keyboard.DirectionDelta | client/src/input/keyboard.ts:43-54 | W beats S and A beats D: the vertical delta is -1 for W, else 1 for S, and the horizontal -1 for A, else 1 for D |
| Keyboard.OppositeKeys | client/src/input/keyboard.ts:45-52 | W with S gives UP, A with D gives LEFT |
| Keyboard.SetChatMode | client/src/input/keyboard.ts:60-68 | entering chat releases every key; leaving keeps the keys |
| Keyboard.ChatBlocksMovement | client/src/input/keyboard.ts:19-20 | in chat mode no sequence of key presses changes anything |
| StateMachine.New | src/components/state-machine/state-machine.ts:17-27 | a new machine has no states, no current state, no change in progress and an empty queue |
| StateMachine.Admitted | src/components/state-machine/state-machine.ts:43-54 | the requests kept are registered and not the current state |
| StateMachine.Defer | src/components/state-machine/state-machine.ts:43-54 | during a change, a request for an unknown or the current state is dropped; any other is queued |
| StateMachine.DeferAll | src/components/state-machine/state-machine.ts:51-54 | requests made during a change are queued in order, minus the dropped ones |
| StateMachine.SetState | src/components/state-machine/state-machine.ts:40-65 | unknown or current names are ignored; during a change the request is queued; otherwise the state becomes current and its onEnter runs, with its requests queued |
| StateMachine.SetStateDuringChange | src/components/state-machine/state-machine.ts:51-54 | during a change setState only defers |
| StateMachine.SetStates | src/components/state-machine/state-machine.ts:40-65 | a series of setState calls only extends the log with state entries |
| StateMachine.Update | src/components/state-machine/state-machine.ts:29-38 | a queued request is taken first, from the head; otherwise the current state's onUpdate runs |
| StateMachine.UpdateIsFifo | src/components/state-machine/state-machine.ts:29-34 | update serves the oldest request, keeps the rest in order, and only enters that state |
| StateMachine.AddState | src/components/state-machine/state-machine.ts:67-70 | adding registers the state under its name and changes no other entry |
| StateMachine.AddStateKeepsWellFormed | src/components/state-machine/state-machine.ts:67-70 | every state stays registered under its own name |
| StateMachine.AddThenEnter | src/components/state-machine/state-machine.ts:40-70 | a freshly added state can be entered |
| Life.NewLife | src/components/game-object/life-component.ts:9-13 | current life defaults to the maximum |
| Life.TakeDamage | src/components/game-object/life-component.ts:22-30 | a life of 0 is final; otherwise damage is subtracted and clamped at 0 |
| Life.DamageAdds | src/components/game-object/life-component.ts:22-30 | two non-negative hits equal one hit of their sum |
| Life.TakeAll | src/components/game-object/life-component.ts:22-30 | a series of hits keeps the maximum and never makes life negative |
| Life.ZeroIsFinal | src/components/game-object/life-component.ts:23-25 | once at 0, no series of hits changes life |
| Life.HealsPastMaximum | src/components/game-object/life-component.ts:26 | negative damage raises life above the maximum, since nothing caps it |
| InputComponent.NewControls | src/components/input/input-component.ts:11-20 | every flag starts released |
| InputComponent.Set | src/components/input/input-component.ts:22-84 | a setter changes its own flag only |
| InputComponent.SetLaws | src/components/input/input-component.ts:22-84 | the last write to a flag wins, and writing a flag's own value changes nothing |
| InputComponent.IsUpJustDown | src/components/input/input-component.ts:29-31 | "just down" for up reads the held flag |
| InputComponent.IsDownJustDown | src/components/input/input-component.ts:40-42 | "just down" for down reads the held flag |
| InputComponent.Reset | src/components/input/input-component.ts:86-95 | reset releases every flag, as a new component |
| Chest.NewChest | src/components/game-objects/objects/chest.ts:18-30 | a chest starts closed in the given state, hidden by default, with the big frame exactly for a boss-key chest |
| Chest.OpenChest | src/components/game-objects/objects/chest.ts:39-47 | only a revealed chest opens, showing the open frame of its size |
| Chest.OpenIdempotent | src/components/game-objects/objects/chest.ts:39-47 | opening twice is opening once |
| Chest.HiddenStaysShut | src/components/game-objects/objects/chest.ts:40-42 | no number of open attempts changes a hidden chest |
| Character.NewCharacter | src/components/game-objects/common/character-game-object.ts:40-80 | a new character is not defeated, is an enemy iff not a player, is invulnerable only when asked, and has an empty state machine |
| Character.Hit | src/components/game-objects/common/character-game-object.ts:116-133 | a defeated or invulnerable character ignores hits; otherwise damage is taken, and the character is defeated and sent to DEATH_STATE at 0 life, else sent to HURT_STATE with the attack direction |
| Character.DefeatIsFinal | src/components/game-objects/common/character-game-object.ts:116-133 | hits keep "defeated means no life"; a defeated character ignores all further hits |
| Character.DisableObject | src/components/game-objects/common/character-game-object.ts:135-141 | disabling turns off body and activity; only enemies disappear |
| Character.EnableObject | src/components/game-objects/common/character-game-object.ts:143-150 | only a defeated character is re-enabled |
| Character.DisableThenEnable | src/components/game-objects/common/character-game-object.ts:135-150 | a defeated character disabled and enabled again is back in play |
| CharacterStates.IdleEnter | src/components/state-machine/states/character/idle-state.ts:13-21 | entering idle plays the idle animation of the facing and stops the body |
| CharacterStates.IdleUpdate | src/components/state-machine/states/character/idle-state.ts:23-30 | idle requests MOVE_STATE iff a direction is held |
| CharacterStates.MoveFacing | src/components/state-machine/states/character/move-state.ts:22-56 | up beats down beats left beats right for the facing; with nothing held the facing stays |
| CharacterStates.MoveVertical | src/components/state-machine/states/character/move-state.ts:22-32 | the vertical half sets the vertical velocity and, for up or down, the facing and walk animation |
| CharacterStates.MoveHorizontal | src/components/state-machine/states/character/move-state.ts:34-56 | the horizontal half sets the horizontal velocity and flip, and faces sideways only without vertical input |
| CharacterStates.MoveUpdate | src/components/state-machine/states/character/move-state.ts:14-59 | the velocity has the signs of the held keys, the facing follows MoveFacing, and IDLE_STATE is requested iff nothing is held |
| CharacterStates.MoveFacesVelocity | src/components/state-machine/states/character/move-state.ts:22-56 | the facing points along the velocity |
| CharacterStates.IdleMoveAgree | src/components/state-machine/states/character/move-state.ts:17-20 | idle asks to move exactly when move would not ask for idle |
| CharacterStates.NewHurtState | src/components/state-machine/states/character/hurt-state.ts:15-25 | the next state defaults to IDLE_STATE |
| CharacterStates.PushBack | src/components/state-machine/states/character/hurt-state.ts:36-51 | UP pushes up, DOWN pushes down, and both LEFT and RIGHT push right |
| CharacterStates.HurtEnter | src/components/state-machine/states/character/hurt-state.ts:27-63 | entering hurt pushes the body back, makes the character invulnerable, calls the callback once and plays the hurt animation |
| CharacterStates.PushBackEnds | src/components/state-machine/states/character/hurt-state.ts:52-55 | the delayed call stops the body |
| CharacterStates.HurtAnimationDone | src/components/state-machine/states/character/hurt-state.ts:65-70 | when the animation ends the next state is requested |
| CharacterStates.InvulnerabilityEnds | src/components/state-machine/states/character/hurt-state.ts:66-68 | after the delay the character is vulnerable again |
| CharacterStates.HurtShieldsFromHits | src/components/state-machine/states/character/hurt-state.ts:57 | while hurt, hits do nothing |
| CharacterStates.HitAfterRecovery | src/components/state-machine/states/character/hurt-state.ts:65-70 | once vulnerable again, a hit takes damage as before |

## Left out

- Noise: fbmNoise and smoothNoise are not modelled. Their values enter as
  uninterpreted reals (`Terrain.Noise`), and float arithmetic on them is
  exact real arithmetic.
- The generator's float output `(s - 1) / 2147483646` is not modelled;
  only its integer state is.
- getTileCornerHeights is rendering data that no movement rule reads.
- spawnInitialEnemies is not modelled. Its cluster placement is 50
  random tries per enemy; the model starts from any enemy table and
  models `#spawnEnemy` (`EntityManager.NewEnemy`).
- Rendering, the camera, the DOM and the WebSocket transport are left
  out. JSON encoding is left out too; messages are datatypes.
- Message sending is modelled by returned event lists; the `#broadcast`
  null checks are not.
- The socket connection is a boolean argument.
- `Math.random()`, `setTimeout`, `delayedCall` and Phaser animation
  callbacks are not called by the model. Draws are arguments, and
  delayed effects are separate functions applied by the caller.
- When a draw list runs short, `DrawAt` and `DrawFor` supply a default
  draw.
- Screen-to-tile conversion and mouse octant maths are left out. The
  client's mouse state enters as the `Prediction.Mouse` record: held
  direction, running, pending click and its target tile.
- An empty-string target id cannot be written, since ids are a
  datatype. The source treats `''` as "no target", which the model
  writes as `None`.
- The `keys` getter's defensive copy needs no model, because keys are
  values.
- Players never die. `isDead` is read but never set to true in the
  source, so it stays a flag that no operation changes.
- The `running` flag of a client input never reaches the server's player
  state: handleInput copies only the direction and the sequence number.
  Player speed therefore stays at PLAYER_WALK_MS.
- character-states.ts is not part of this model. The state names are
  taken as four distinct strings (`Common`).
- State callbacks are represented by the `setState` requests they make.
  The character states return their request (`CharacterStates.Reaction`)
  instead of calling the machine.
- CharacterStates.MoveUpdate: `#normalizeVelocity` is not modelled. The
  velocity keeps only the signs −1/0/1 per axis, not its length scaled
  to the speed.
- Terrain.States: states only the length of the draw list. Its contents
  are stated by `Terrain.StatesChain` and `Terrain.StatesInRange`.
- EntityManager.HitSeries: states only that the table keeps its size.
  The death events it produces are bounded by
  `EntityManager.DeathOnlyOnce`.
- EntityManager.UpdateFrom: its own contract states only what the pass
  keeps. The enemy-by-enemy result is stated by
  `EntityManager.UpdateFromEnemies` and `EntityManager.UpdateFromOcc`.
- EntityManager.UpdateAll: its own contract states only what the pass
  keeps. The enemy-by-enemy result is stated by
  `EntityManager.UpdateAllInOrder`.
- PlayerManager.Positions: its own contract states membership and the
  one-player case. Table order is stated by `PlayerManager.PositionsAppend`.
- GameLoop.RespawnDue: states only that ids and the rest of the world
  are kept. The respawned enemy is described by `EntityManager.Respawn`.
- Respawn, as in the source, neither updates the occupancy set nor
  tests the terrain. It can place an enemy on water or next to a stale
  occupancy mark.
- Kept as the source has them, shown by the lemmas named in the table:
  - the player pass makes no elevation test and no diagonal corner test;
  - occupancy is not updated between players in the same pass;
  - the client tests only the lower world bound;
  - a finished player step drops its excess time and idles for a tick;
  - hurt push-back from LEFT pushes right.
- MOVE_ACK: the server code that sends it is not part of this model.
  The ack enters as an abstract `(accepted, tile)` record.
