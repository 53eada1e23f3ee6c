# Tower defence engine, modelled and verified in Dafny

This project models the simulation and economy engine of the browser tower-defence game in `app.js`: the part of the
`TowerDefenseGame` class that runs the game. It leaves out the drawing and the user interface around it.

The engine keeps these statistics: gold, lives, wave and score. It keeps these object lists: placed towers, live
enemies, and projectiles together with their pool. It also has a grid of 40-pixel cells, a path of one waypoint per
column, and the wave controller's fields. Each tick of `updateGame` does the following, in order:

1. It runs the spawn and wave timers.
2. It spawns at most one enemy.
3. It sweeps the enemy list backwards. Killed enemies are removed and paid for, escaped enemies cost a life, and
   the others move and lose their expired slow effects.
4. It lets every tower aim at the living enemy in range that is furthest along the path, and fire when its cooldown
   has passed.
5. It moves every projectile. A projectile that hits applies its damage, a frost slow or a lightning chain.
6. It completes a drained wave, ends the game when no lives are left, and starts the next wave when the countdown
   has run out.

The player commands place, upgrade and sell towers.

The model has these modules:

- `Catalog`: the tower and enemy tables and the game's constants.
- `Economy`: the integer formulas for sell values, upgrade prices, wave scaling and bonuses, each proved to be the
  floor of the product the code writes.
- `Effects`: slow effects, their expiry and the speed factor they give.
- `Geometry`: squared distances, grid cells and the generated path.
- `Entities`: the `Enemy`, `Tower` and `Projectile` classes, whose fields the code updates in place. It also holds
  the specification functions of the engine's loops: fates, survivors, bounty, kill credit, best target, chain
  victims and the first free projectile.
- `Sweeps`: `updateEnemies` as a function on values, and what one sweep amounts to.
- `Waves`: the wave/spawn controller as a state machine.
- `Board` and `Consistency`: the grid invariants and the object-list invariants, and how each update keeps them.
- `Engine`: the `Game` class. Its methods mirror the engine's methods and are proved against the functions above.

Time and randomness enter as parameters:

- `now` replaces `Date.now()`.
- `choice` is the random enemy type.
- `turns` holds the random bend decisions of path generation, one per column.
- The floating-point step towards a target is an uninterpreted `Stepper` function.

The model follows the code where it differs from the game's documentation. Health is a real number (projectile
damage grows by a factor of 1.3 per upgrade), and it is not clamped at 0 (app.js:939, 980). Death is the flag
`isDead`, set when health reaches 0 or below and never reset.

## Model

| member | source | states |
|---|---|---|
| Catalog.StatsPositive | app.js:13-20 | every tower type has positive damage, range and fire rate and costs at least 15 gold |
| Economy.FormulasAreFloors | app.js:518-520 | the integer quotients used for the placement sell value, upgrade price, upgraded sell value and wave scaling equal the floor of the exact rational products cost*0.7, cost*(level+1)*0.6, sellValue*1.4 and base*(1+(wave-1)*0.2); the double-precision products the code floors are not modelled (see "Left out") |
| Economy.UpgradeRaisesSellValue | app.js:546 | floor(1.4*v) never lowers a non-negative sell value and raises it once it is at least 3 |
| Economy.SellValueAtLeastPlacement | app.js:474 | after any number of upgrades the sell value is at least the placement value floor(0.7*cost) |
| Economy.SellValueStrictlyIncreases | app.js:546 | for a tower costing at least 5 gold, each upgrade strictly raises the sell value |
| Economy.UpgradeCostGrows | app.js:518-520 | the upgrade price never falls as the level rises |
| Economy.ScaledGrowsWithWave | app.js:646 | the wave multiplier leaves wave 1 unscaled and never shrinks a stat in later waves |
| Effects.ExpireShrinks | app.js:815-824 | expiry never adds effects |
| Effects.ExpireSound | app.js:815-824 | every surviving effect has a positive duration and is an input effect with its duration lowered by dt |
| Effects.ExpireComplete | app.js:815-824 | every effect whose lowered duration is positive survives |
| Effects.ExpireAppend | app.js:815-824 | expiry works element by element, so the survivors keep their relative order |
| Effects.ExpireCompose | app.js:815-824 | two ticks of a and b seconds expire the same effects as one tick of a+b seconds |
| Effects.SlowFactorAppend | app.js:953-958 | a frost slow is appended, not merged: it multiplies the speed factor once more |
| Effects.SlowFactorBounds | app.js:804-808 | with multipliers in (0, 1] the speed factor stays in (0, 1] |
| Geometry.CellIndexOf | app.js:615-623 | a cell is found exactly when the point lies on the grid; it is the cell of column floor(x/40) and row floor(y/40), which contains the point |
| Geometry.CenterMapsToCell | app.js:567 | the centre of a cell maps back to that cell, so a sold tower's cell is found again |
| Geometry.PathRowInGrid | app.js:196-202 | the path never leaves the grid, and once it has bent it keeps off the top and bottom rows |
| Geometry.WaypointsAdjacent | app.js:183-202 | consecutive waypoints are one column apart, at most one row apart, and distinct |
| Geometry.PathEndsLevel | app.js:197 | the path runs straight through the last five columns |
| Entities.Enemy.Spawn | app.js:648-663 | a new enemy stands at the first waypoint with path index 0, full health, and health and reward scaled for the wave |
| Entities.Enemy.ChainHit | app.js:973-987 | an eligible enemy hit while fewer than three have been struck loses 8 health, dies exactly when its health is then at most 0, and the count rises by one; otherwise nothing changes |
| Entities.Tower.Place | app.js:459-475 | a new tower is level 1 with no kills, no target, catalogue stats and sell value floor(0.7*cost) |
| Entities.Tower.Upgrade | app.js:542-546 | the level rises by one, damage, range and fire rate grow by 30%, 10% and 20%, and the sell value becomes floor(1.4*sellValue) |
| Entities.Tower.CreditKill | app.js:835-836 | one more kill and no target |
| Entities.Projectile.constructor | app.js:1030 | a pooled projectile is created inactive, aiming at nothing |
| Entities.Projectile.Launch | app.js:893-901 | the projectile is fired from the tower at its target, with speed 400 and the tower's damage and type |
| Entities.MoveProgress | app.js:785-799 | the waypoint index grows by at most one, and only within 5 of the next waypoint, never past the last; the end flag is set exactly at the last waypoint |
| Entities.StepFate | app.js:768-781 | a pass never revives, kills or un-escapes an enemy; an enemy in play escapes exactly when it stood at the last waypoint |
| Entities.SurvivorsSpec | app.js:764-783 | the enemies left by a sweep are exactly those in play, each once, and all were listed before |
| Entities.SurvivorsCount | app.js:764-783 | every enemy of the sweep is a survivor, killed or escaped |
| Entities.BountyNonNegative | app.js:828 | the gold paid for the killed enemies is never negative |
| Entities.FirstAiming | app.js:833-839 | the index found is the first tower aiming at the enemy, or the list length when none is |
| Entities.CreditAllSpec | app.js:826-840 | over a whole sweep, exactly the first tower aiming at each killed enemy gains one kill and drops its target; every other tower keeps its record |
| Entities.BestTargetIsBest | app.js:861-882 | the scan returns null exactly when no living enemy is in range; otherwise a living enemy in range with the largest path index, the first such on ties |
| Entities.BestTargetUnique | app.js:874 | at most one enemy satisfies the best-target rule |
| Entities.AliveTargets | app.js:861-882 | when no enemy is dead, findTarget's choice is the enemy in range furthest along the path, the first on ties |
| Entities.AimsAt | app.js:842-845 | the aim of the k-th tower is findTarget's choice for that tower |
| Entities.AliveAims | app.js:842-845 | when no enemy is dead, every tower aims at the enemy in its range furthest along the path |
| Entities.VolleySpec | app.js:842-859 | loading the towers' shots into the projectile list never reloads a flying projectile, puts every shot in the air, and leaves each slot either as it was or holding one of the shots |
| Entities.ReadyIffElapsedShots | app.js:884-888 | the cooldown has passed exactly when the elapsed milliseconds times the fire rate reach 1000 |
| Entities.ShotTimesSpaced | app.js:884-903 | over any run of tower passes, whatever the clock reads, the last shot time never falls, and between any point of the run and its end it either stays put or moves on by at least one cooldown 1000/fireRate: a tower never fires twice within a cooldown |
| Entities.ShotsSpaced | app.js:884-888 | shot times that each respect the cooldown span at least n-1 cooldowns |
| Entities.ChainStrikesAtMostThree | app.js:966-990 | a chain strikes min(3, eligible) enemies |
| Entities.FirstInactive | app.js:1022-1027 | the index found is the first inactive pooled projectile, or the pool length when all are active |
| Entities.FirstInactiveFree | app.js:1022-1027 | the first inactive projectile of the pool is the first free slot of the flights, so loading a shot and getProjectileFromPool agree |
| Entities.FirstNear | app.js:493-497 | the index found is the first tower within 25 of the point, or the list length |
| Sweeps.SweepAtKilled | app.js:768-771 | the pass over a killed enemy removes it, pays its reward, adds ten times that to the score and credits it |
| Sweeps.SweepAtEscaped | app.js:773-778 | the pass over an enemy at the end removes it for one life |
| Sweeps.SweepAtInPlay | app.js:780-781 | the pass over an enemy in play changes only that enemy's state, by one step |
| Sweeps.SweepDownSpec | app.js:765-782 | after the passes down to index i, the list is the untouched prefix followed by the survivors of the rest, and gold, score, lives, kill credits and enemy states account for the rest |
| Sweeps.SweepAllSpec | app.js:764-783 | a whole sweep keeps the enemies in play in order, pays the killed enemies' rewards, scores ten times that, costs one life per escaped enemy, credits the kills and steps every enemy |
| Waves.InvariantKept | app.js:726-762 | every controller transition keeps wave >= 1 and 0 <= enemiesSpawned <= enemiesInWave |
| Waves.BeginSpawnsAtMostOne | app.js:730-739 | a tick spawns at most one enemy, and exactly one when the wave is active, not fully spawned and the timer passes one second; the countdown runs only between waves |
| Waves.CompletionIffDrained | app.js:748-751 | the wave advances exactly when it is drained, and then gold gains 20+5*newWave and score five times that |
| Waves.WonIffPastLastWave | app.js:1001-1006 | on completion the game is won, paused and stopped exactly when the new wave passes the last; otherwise the countdown restarts at 15 |
| Waves.WinTickStartsAnotherWave | app.js:758-761 | as written, a winning tick whose countdown had already run out still starts a wave past the last in the stopped game |
| Waves.LossIsTerminal | app.js:753-756 | with no lives left after a tick the game is paused and stopped |
| Waves.NoSecondCompletion | app.js:748-751 | a wave completes once: the tick after a completion cannot complete another |
| Board.PlacingKeepsPlacement | app.js:477-479 | building on a free, off-path cell keeps the grid agreeing with the towers |
| Board.SellingKeepsPlacement | app.js:567-573 | a placed tower's cell is always found, and clearing it while removing the tower keeps the grid agreeing with the towers |
| Board.FreshBoard | app.js:162-204 | a generated board is well formed, has no tower, and marks exactly the path's cells as path |
| Consistency.Spawned | app.js:665 | appending a new enemy keeps the game invariant |
| Consistency.Opened | app.js:31-69 | a game with no objects on a well-formed board satisfies the invariant |
| Consistency.Thinned | app.js:764-783 | keeping only some of the enemies, each once, keeps the invariant |
| Consistency.Built | app.js:459-479 | building a tower at a free, off-path cell puts it at the cell's centre and keeps the invariant |
| Consistency.Sold | app.js:565-573 | selling a tower clears the cell it stands on and keeps the invariant |
| Engine.Game.TowersOnDistinctCells | app.js:445 | no two placed towers share a cell |
| Engine.Game.constructor | app.js:31-69 | the starting statistics, empty object lists and timers, and the board produced by generateGrid and generateEnemyPath |
| Engine.Game.GenerateBoard | app.js:82-84 | the generated board is well formed, has no tower, and its path cells and waypoints follow the bend decisions |
| Engine.Game.GenerateGrid | app.js:162-176 | every cell is blank and knows its centre |
| Engine.Game.GenerateEnemyPath | app.js:178-204 | one waypoint per column, at the centre of the path row's cell, which is marked as path; nothing else on the grid changes |
| Engine.Game.StartGame | app.js:625-627 | the game runs, with the countdown at 15 |
| Engine.Game.TogglePause | app.js:669-670 | the pause flag flips |
| Engine.Game.SetGameSpeed | app.js:688-689 | the game speed is set |
| Engine.Game.PlaceTower | app.js:442-490 | rejects an off-grid, occupied or path cell, then insufficient gold, changing nothing; on success a new level-1 tower stands at the cell's centre, occupies it, its price moves from gold to score, and the tower selection is cleared |
| Engine.Game.BuildTower | app.js:459-482 | the successful placement, keeping the game invariant |
| Engine.Game.TowerAt | app.js:493-497 | the first tower within 25 of the point |
| Engine.Game.SelectExistingTower | app.js:493-503 | the first tower within 25 becomes selected; with none there the selection is unchanged |
| Engine.Game.UpgradeTower | app.js:533-546 | with gold below the upgrade price nothing changes; otherwise the price is paid and the tower is upgraded as `Tower.Upgrade` says |
| Engine.Game.UpgradeTowerAt | app.js:522-531 | the first tower within 25 is upgraded and no other tower changes; with none there nothing changes |
| Engine.Game.SellTower | app.js:565-574 | the tower's cell is freed, the tower leaves the list and its sell value is paid |
| Engine.Game.SellTowerAt | app.js:553-574 | the first tower within 25 is sold: it leaves the list, its sell value is paid and its cell is freed; with none there nothing changes |
| Engine.Game.SpawnWave | app.js:632-637 | a wave of 5+2*wave enemies becomes active with nothing spawned yet |
| Engine.Game.SpawnEnemy | app.js:642-667 | with the wave fully spawned nothing changes; otherwise a new enemy of the chosen type is appended at the first waypoint, alive and without effects, with scaled health and reward, and counted |
| Engine.Game.EndGame | app.js:1009-1019 | the game stops and pauses |
| Engine.Game.CompleteWave | app.js:992-1007 | the controller moves as `Waves.CompleteWave`: next wave, bonus paid, then a win or the 15-second countdown |
| Engine.Game.AdvanceWave | app.js:993-997 | the wave ends, the counter advances and the bonus is paid in gold and five times over in score |
| Engine.Game.KillEnemy | app.js:826-840 | the enemy leaves the list, its reward is paid and scored ten times, and the first tower aiming at it is credited |
| Engine.Game.CreditKiller | app.js:832-839 | the first tower aiming at the enemy gains a kill and loses its target; the others are unchanged |
| Engine.Game.MoveEnemy | app.js:785-813 | one `Move` along the path with the speed slowed by every effect, per 1/60 second, times the game speed |
| Engine.Game.UpdateEnemyEffects | app.js:815-824 | the effect list becomes `Expire` of the old one |
| Engine.Game.UpdateEnemyAt | app.js:766-781 | one loop pass is `SweepAt` at that index, and the enemies before it stay where they are |
| Engine.Game.SweepKilled | app.js:768-771 | the pass over a killed enemy is `SweepAt` |
| Engine.Game.SweepEscaped | app.js:773-778 | the pass over an escaped enemy is `SweepAt` |
| Engine.Game.SweepInPlay | app.js:780-781 | the pass over an enemy in play is `SweepAt` |
| Engine.Game.UpdateEnemies | app.js:764-783 | the new state is the whole sweep of the old one (see `Sweeps.SweepAllSpec`) |
| Engine.Game.SettleEnemies | app.js:764-783 | the enemies left are the ones in play, in order and each once, and none is dead; gold, score and lives account for the killed and escaped ones; every enemy took its step; the towers' records credit the kills (`Settled`) |
| Engine.Game.SweepEnemies | app.js:742 | within a tick the enemy sweep is as `SettleEnemies` says, keeps the invariant, changes only lives, gold and score of the controller, and leaves projectiles and shot times alone |
| Engine.Game.FindTarget | app.js:861-882 | the best target: a living enemy in range furthest along the path, the first on ties, or null |
| Engine.Game.GetProjectileFromPool | app.js:1022-1034 | the first inactive pooled projectile, or a new blank one appended to both pool and list, which stay equal |
| Engine.Game.ReturnProjectileToPool | app.js:1036-1039 | the projectile is inactive and aims at nothing |
| Engine.Game.ShootProjectile | app.js:890-904 | a pooled projectile (the first free one, or a new one appended) is fired from the tower at its target, the tower's last shot is `now`, and no other projectile changes |
| Engine.Game.AimTower | app.js:845 | the tower aims at its best target |
| Engine.Game.FireTower | app.js:884-904 | the tower fires exactly when it has a target and its cooldown has passed: then its shot, a flight from the tower at its target, is loaded into the first free slot and its last shot becomes `now`; otherwise no projectile and no shot time changes |
| Engine.Game.UpdateTower | app.js:843-857 | one tower's pass: it aims at its best target, and its shot and flights are as `FireTower` says for that target (`Turned`) |
| Engine.Game.UpdateTowers | app.js:842-859 | every tower, in list order, has had its pass against the enemies as they stood, and the flights are the old ones with the shots loaded in tower order (`Volley`) |
| Engine.Game.TurnNext | app.js:843-857 | one iteration of the loop: tower k has its pass, the earlier ones keep theirs and the later ones keep their shot times |
| Engine.Game.TickTowers | app.js:743 | within a tick the towers' passes are as `UpdateTowers` says, keep the invariant, leave the controller, the enemy list, every enemy's position and every kill count alone, and aim only at spawned enemies |
| Engine.Game.ChainLightning | app.js:966-990 | exactly the chain victims lose 8 health and die at 0 or below; every other enemy and the source keep health and death flag |
| Engine.Game.HitTarget | app.js:935-949 | the target loses the damage and dies at 0 or below; a frost hit appends one slow; a lightning hit chains; otherwise no other enemy changes |
| Engine.Game.ApplyTowerEffects | app.js:951-964 | frost appends one slow of 2 seconds at 0.5; lightning chains from the enemy; other types change nothing |
| Engine.Game.StepProjectile | app.js:911-931 | a free projectile is skipped; one with a missing or dead target is released; one within 8 hits and is released; any other steps towards its target |
| Engine.Game.UpdateProjectiles | app.js:910-933 | every projectile takes its pass in list order, the enemies only wear down, and the pool stays well formed |
| Engine.Game.TickProjectiles | app.js:744 | within a tick every projectile has its pass (`Flew`: skipped, released, or stepped towards its target), enemies only wear down and do not move, and the invariant, controller and kill counts stay |
| Engine.Game.ShootTick | app.js:743-744 | the towers turn on the enemy in range furthest along the path (none being dead after the sweep) and shoot, then every projectile has its pass from the flights they left; no enemy moves and no kill count changes |
| Engine.Game.BeginTick | app.js:729-739 | the timers and the spawn move the controller as `Waves.Begin`; the enemies spawned are appended, new, alive, without effects and at the first waypoint (`Arrived`) |
| Engine.Game.RunTimers | app.js:730-733 | the spawn timer always runs; the countdown runs only between waves while positive |
| Engine.Game.SpawnDue | app.js:736-739 | when an enemy is due, one spawns and the spawn timer restarts |
| Engine.Game.UpdateEntities | app.js:742-744 | enemies, towers and projectiles are updated in that order (`Played`): the survivors are those in play, every enemy took its step and stays there, kills are credited, towers turn on the furthest enemy in range and shoot, every projectile has its pass; gold, score and lives account for the killed and escaped enemies |
| Engine.Game.PlayTick | app.js:729-744 | from the start of a tick to the end of the entity updates: `Waves.Begin`, then the sweep over the old enemies and the newly spawned ones (`Accounted`), with towers, projectiles and kill credits as `Played` says |
| Engine.Game.FinishTick | app.js:748-761 | completion, loss check and automatic start move the controller as `Waves.Finish`, and what the entity updates did (`Played`) still holds |
| Engine.Game.CloseWave | app.js:748-751 | a drained wave completes |
| Engine.Game.CheckLoss | app.js:753-756 | with no lives left the game ends |
| Engine.Game.StartDueWave | app.js:758-761 | between waves, once the countdown has run out, the next wave starts |
| Engine.Game.UpdateGame | app.js:726-762 | while paused nothing changes; otherwise the controller moves as `Waves.Begin` then `Waves.Finish`, the enemies left are those in play, gold, score and lives account for the killed and escaped enemies, and every enemy step, kill credit, tower pass and projectile pass is as `Played` says |

## Left out

- Rendering, the canvas, the DOM and the user interface: `render`, the `draw*` methods, `updateUI`, notifications,
  tutorial, loading screen, range indicators, shake animation, and the selection and mode-toggle state beyond
  `selectedTower`. These are browser I/O.
- Input handling, meaning mouse, touch and keyboard events and `getMousePos`. It is event plumbing. The placement,
  upgrade and sell operations behind it are modelled. The selected tower type becomes `PlaceTower`'s `kind`
  parameter.
- Particles and damage numbers, `updateParticles` and `updateDamageNumbers`. They are visual only and touch no game
  state the model keeps.
- Floating-point motion. The unit-vector step of an enemy or a projectile is the uninterpreted `Stepper`, and the
  turret rotation by `atan2` is not modelled. Only the decisions they feed are kept: path index, end flag, and the
  within-5 and within-8 tests.
- `Math.sqrt(d) <= r` and `< r` are modelled as squared-distance comparisons, `DistSq <= r*r` and `< r*r`. These
  agree for the non-negative radii the code uses.
- The upgrade multipliers 1.3, 1.1 and 1.2 are applied to real numbers. Floating-point rounding is not modelled.
- `Date.now()` is the `now` parameter. `Math.random` becomes `choice` for the enemy type and `turns` for the path
  bends. Identifiers, colours, enemy sizes and a tower's `data`, `upgrades` and `rotation` fields are not modelled.
- `gameLoop`, `requestAnimationFrame` and the delta clamp. The elapsed time is a parameter `dt`. As in the code,
  `moveEnemy` and the projectile step multiply it by `gameSpeed` once more.
- `init`, `setupCanvas` and the 1-second `setTimeout` by which `startGame` schedules the first `spawnWave`. These are
  host scheduling. The grid size is a constructor parameter, and `SpawnWave` is a method a caller invokes.
- `gameOver` and `gameWin` differ only in their notification, so both are the one method `EndGame`.
- `getUpgradeCost` is the function `Economy.UpgradeCost`, applied to the tower's catalogue price and level.
- `getGridPosition` returns the cell's index (`CellIndexOf`) rather than the cell itself. Callers read or update
  the grid at that index.
- UpdateProjectiles: for each projectile it states the outcome of its pass and that every enemy only wore down. It
  does not carry over the damage each hit dealt, which `StepProjectile` states for a single pass. A released
  projectile's reason is given as "target missing, dead, or within 8", without saying which one applied.
- `TogglePause`, `SetGameSpeed`: only the flag and the speed are modelled. The button labels they also change are UI.
- Economy.UpgradedSellValue, Economy.Scaled, Tower.Upgrade, Enemy.Spawn: these compute `Math.floor` of a
  double-precision product as the floor of the exact rational product. Where the double falls just short of an
  integer the code's result is one less: 85*1.4 is 118.99999999999999, so the code floors it to 118 and the model
  gives 119; 200*(1+18*0.2) is 919.9999999999999, so the code floors it to 919 and the model gives 920.
- Entities.Enemy.Spawn: for that reason a wave-19 Boss gets health 919 and reward 229 from the code, and 920 and 230
  from the model.
- Entities.Tower.Upgrade: for that reason a tower with sell value 85 gets sell value 118 from the code after an
  upgrade, and 119 from the model.
- `handleResize` (app.js:258-263) is not modelled. It regenerates the grid and the path while the towers, enemies and
  projectiles stay, so the old towers' cells are no longer marked occupied. The board invariants assume the board is
  generated once, by the constructor.
- Engine.Game.SpawnEnemy, Engine.Game.SpawnDue, Engine.Game.BeginTick, Engine.Game.PlayTick, Engine.Game.UpdateGame:
  these require a non-empty path. With an empty `enemyPath` the code throws a `TypeError` on `this.enemyPath[0].x`;
  the exception is not modelled. `generateEnemyPath` always makes one waypoint per column.
- A projectile's aim point `targetX`/`targetY` is set at launch (`Fired`) but is not part of the flights, since it is
  never read again.
