/** The simulation and economy engine of the tower-defence game: the game
    object with its statistics, object lists, grid, path and wave fields, and
    the methods that update them. */
module Engine {
  import opened Util
  import opened Catalog
  import opened Economy
  import opened Geometry
  import opened Effects
  import opened Entities
  import opened Sweeps
  import opened Board
  import opened Consistency
  import Waves

  /** How a player command ended; the source reports the failures as
      notifications and otherwise changes nothing. */
  datatype Outcome = Done | InvalidPlacement | InsufficientFunds | NoTowerHere

  class Game {
    // Game statistics.
    var gold: int
    var lives: int
    var wave: int
    var score: int

    // Game objects. The pool and the projectile list always hold the same
    // projectiles; `allEnemies` is every enemy ever spawned, which projectiles
    // may still point at after the enemy left `enemies`.
    var placedTowers: seq<Tower>
    var enemies: seq<Enemy>
    var projectiles: seq<Projectile>
    var projectilePool: seq<Projectile>
    ghost var allEnemies: set<Enemy>
    var selectedTower: Tower?

    // Settings.
    var gameSpeed: int
    var isPaused: bool
    var gameRunning: bool

    // Grid and path.
    const gridRows: nat
    const gridCols: nat
    var grid: seq<seq<Cell>>
    var enemyPath: seq<Point>

    // Wave controller.
    var enemySpawnTimer: real
    var waveTimer: real
    var enemiesInWave: int
    var enemiesSpawned: int
    var waveActive: bool

    /** The fields the wave controller reads and writes. */
    function Controller(): Waves.Controller
      reads `wave, `lives, `gold, `score, `waveActive, `enemiesInWave, `enemiesSpawned,
            `enemySpawnTimer, `waveTimer, `isPaused, `gameRunning
    {
      Waves.Controller(wave, lives, gold, score, waveActive, enemiesInWave, enemiesSpawned,
                       enemySpawnTimer, waveTimer, isPaused, gameRunning)
    }

    /** The wave invariant `Waves.Inv` on the fields it constrains. */
    ghost predicate WaveValid()
      reads `wave, `enemiesSpawned, `enemiesInWave
    {
      wave >= 1 && 0 <= enemiesSpawned <= enemiesInWave
    }

    ghost predicate PoolValid()
      reads `projectiles, `projectilePool, `allEnemies,
            projectiles`active, projectiles`target, projectiles`damage
    {
      PoolOk(projectilePool, projectiles, allEnemies)
    }

    ghost predicate EnemiesValid()
      reads `enemies, `allEnemies, enemies`health
    {
      EnemiesOk(enemies, allEnemies)
    }

    ghost predicate TowersValid()
      reads `placedTowers, placedTowers`damage, placedTowers`range, placedTowers`fireRate
    {
      TowersOk(placedTowers)
    }

    ghost predicate GridValid()
      reads `grid, `enemyPath
    {
      GridShaped(grid, enemyPath, gridRows, gridCols)
    }

    ghost predicate GridSized()
      reads `grid
    {
      |grid| == gridRows && forall r :: 0 <= r < gridRows ==> |grid[r]| == gridCols
    }

    ghost predicate PlacementValid()
      reads `grid, `enemyPath, `placedTowers
      requires GridValid()
    {
      PlacementOk(grid, placedTowers, gridRows, gridCols)
    }

    /** The fields `Consistency.GameOk` constrains, as one value. */
    ghost function Snapshot(): World
      reads `projectiles, `projectilePool, `allEnemies, `enemies, `placedTowers, `grid, `enemyPath
    {
      World(projectilePool, projectiles, allEnemies,
            enemies, placedTowers, grid, enemyPath, gridRows, gridCols)
    }

    /** The game invariant: the wave counters are in range and the fields of
        `Snapshot` satisfy `Consistency.GameOk`. */
    ghost predicate Valid()
      reads `wave, `enemiesSpawned, `enemiesInWave, `projectiles, `projectilePool, `allEnemies,
            `enemies, `placedTowers, `grid, `enemyPath,
            projectiles`active, projectiles`target, projectiles`damage, enemies`health,
            placedTowers`damage, placedTowers`range, placedTowers`fireRate
    {
      WaveValid() && GameOk(Snapshot())
    }

    /** No two placed towers share a cell. */
    lemma TowersOnDistinctCells(i: int, j: int)
      requires Valid() && 0 <= i < j < |placedTowers|
      ensures CellIndexOf(placedTowers[i].x, placedTowers[i].y, gridRows, gridCols)
              != CellIndexOf(placedTowers[j].x, placedTowers[j].y, gridRows, gridCols)
    {
      assert OpenBoard(0);
      assert OnOwnCell(grid, placedTowers[i], gridRows, gridCols);
      assert OnOwnCell(grid, placedTowers[j], gridRows, gridCols);
      DistinctAt(placedTowers, i);
    }

    /** The constructor together with generateGrid and generateEnemyPath: a
        fresh game on a gridRows x gridCols grid, with the path drawn by the
        bend decisions `turns`, one per column. */
    constructor (rows: nat, cols: nat, turns: seq<Turn>)
      requires |turns| == cols
      ensures Valid()
      ensures gridRows == rows && gridCols == cols
      ensures Controller() == Waves.Controller(FirstWave, StartLives, StartGold, 0, false, 0, 0, 0.0, WaveDelay, false, false)
      ensures placedTowers == [] && enemies == [] && projectiles == [] && projectilePool == []
      ensures allEnemies == {} && selectedTower == null && gameSpeed == 1
      ensures forall c :: 0 <= c < cols ==> enemyPath[c] == PathPoint(turns, rows, cols, c)
      ensures forall r, c :: 0 <= r < rows && 0 <= c < cols ==>
                grid[r][c] == BlankCell(r, c).(onPath := r == PathRow(turns, rows, cols, c))
    {
      gridRows, gridCols := rows, cols;
      gold, lives, wave, score := StartGold, StartLives, FirstWave, 0;
      placedTowers, enemies, projectiles, projectilePool := [], [], [], [];
      allEnemies := {};
      selectedTower := null;
      gameSpeed := 1;
      isPaused, gameRunning := false, false;
      grid, enemyPath := [], [];
      enemySpawnTimer, waveTimer := 0.0, WaveDelay;
      enemiesInWave, enemiesSpawned := 0, 0;
      waveActive := false;
      new;
      GenerateBoard(turns);
      Opened(Snapshot());
    }

    /** generateGrid followed by generateEnemyPath: a well-formed board with
        no tower, its path drawn by `turns`. */
    method GenerateBoard(turns: seq<Turn>)
      requires |turns| == gridCols
      modifies `grid, `enemyPath
      ensures GridShaped(grid, enemyPath, gridRows, gridCols) && PlacementOk(grid, [], gridRows, gridCols)
      ensures forall c :: 0 <= c < gridCols ==> enemyPath[c] == PathPoint(turns, gridRows, gridCols, c)
      ensures forall r, c :: 0 <= r < gridRows && 0 <= c < gridCols ==>
                grid[r][c] == BlankCell(r, c).(onPath := r == PathRow(turns, gridRows, gridCols, c))
    {
      GenerateGrid();
      ghost var blank: seq<seq<Cell>> := grid;
      GenerateEnemyPath(turns);
      FreshBoard(grid, blank, enemyPath, gridRows, gridCols, turns);
    }

    /** generateGrid: every cell blank, knowing its centre. */
    method GenerateGrid()
      modifies `grid
      ensures |grid| == gridRows && forall r :: 0 <= r < gridRows ==> |grid[r]| == gridCols
      ensures forall r, c :: 0 <= r < gridRows && 0 <= c < gridCols ==> grid[r][c] == BlankCell(r, c)
    {
      grid := [];
      for row := 0 to gridRows
        invariant |grid| == row && forall r :: 0 <= r < row ==> |grid[r]| == gridCols
        invariant forall r, c :: 0 <= r < row && 0 <= c < gridCols ==> grid[r][c] == BlankCell(r, c)
      {
        var line: seq<Cell> := [];
        for col := 0 to gridCols
          invariant |line| == col && forall c :: 0 <= c < col ==> line[c] == BlankCell(row, c)
        {
          line := line + [BlankCell(row, col)];
        }
        grid := grid + [line];
      }
    }

    /** generateEnemyPath: one waypoint per column, at the centre of the
        current row's cell, which is marked as path; `turns` holds the random
        bend decision taken after each column. */
    method GenerateEnemyPath(turns: seq<Turn>)
      requires |turns| == gridCols
      modifies `grid, `enemyPath
      ensures |enemyPath| == gridCols
      ensures forall c :: 0 <= c < gridCols ==> enemyPath[c] == PathPoint(turns, gridRows, gridCols, c)
      ensures |grid| == |old(grid)| && forall r :: 0 <= r < |grid| ==> |grid[r]| == |old(grid[r])|
      ensures forall r, c :: 0 <= r < |grid| && 0 <= c < |grid[r]| ==>
                grid[r][c] == old(grid[r][c]).(onPath := old(grid[r][c]).onPath
                                                      || (c < gridCols && r == PathRow(turns, gridRows, gridCols, c)))
    {
      enemyPath := [];
      var currentRow := gridRows / 2;
      for col := 0 to gridCols
        invariant |enemyPath| == col
        invariant forall c :: 0 <= c < col ==> enemyPath[c] == PathPoint(turns, gridRows, gridCols, c)
        invariant currentRow == PathRow(turns, gridRows, gridCols, col)
        invariant |grid| == |old(grid)| && forall r :: 0 <= r < |grid| ==> |grid[r]| == |old(grid[r])|
        invariant forall r, c :: 0 <= r < |grid| && 0 <= c < |grid[r]| ==>
                    grid[r][c] == old(grid[r][c]).(onPath := old(grid[r][c]).onPath
                                                          || (c < col && r == PathRow(turns, gridRows, gridCols, c)))
      {
        enemyPath := enemyPath + [Point(CellCenter(col), CellCenter(currentRow))];
        if 0 <= currentRow < |grid| && col < |grid[currentRow]| {
          grid := grid[currentRow := grid[currentRow][col := grid[currentRow][col].(onPath := true)]];
        }
        currentRow := BendRow(currentRow, col, turns[col], gridRows, gridCols);
      }
    }

    /** startGame: the game runs, with the first countdown at 15 seconds. */
    method StartGame()
      requires Valid()
      modifies `gameRunning, `waveTimer
      ensures Valid()
      ensures gameRunning && waveTimer == WaveDelay
    {
      gameRunning := true;
      waveTimer := WaveDelay;
    }

    method TogglePause()
      requires Valid()
      modifies `isPaused
      ensures Valid()
      ensures isPaused == !old(isPaused)
    {
      isPaused := !isPaused;
    }

    method SetGameSpeed(speed: int)
      requires Valid()
      modifies `gameSpeed
      ensures Valid()
      ensures gameSpeed == speed
    {
      gameSpeed := speed;
    }

    /** A tower can be built at (x, y): the point lies on the grid and its cell
        is neither occupied nor on the path. */
    ghost predicate Buildable(x: real, y: real)
      reads `grid
      requires GridSized()
    {
      var pos := CellIndexOf(x, y, gridRows, gridCols);
      pos.Some? && !grid[pos.value.row][pos.value.col].occupied && !grid[pos.value.row][pos.value.col].onPath
    }

    /** placeTower: with the cell checked before the price, nothing changes
        unless both checks pass; then a new level-1 tower stands at the cell's
        centre, the cell is occupied by it, its price moves from gold to
        score, and the selection is cleared (clearTowerSelection). */
    method PlaceTower(kind: TowerKind, x: real, y: real) returns (outcome: Outcome)
      requires Valid()
      modifies `placedTowers, `gold, `score, `grid, `selectedTower
      ensures Valid()
      ensures outcome == InvalidPlacement <==> !old(Buildable(x, y))
      ensures outcome == InsufficientFunds <==> old(Buildable(x, y)) && old(gold) < Stats(kind).cost
      ensures outcome != NoTowerHere
      ensures outcome != Done ==>
                placedTowers == old(placedTowers) && gold == old(gold) && score == old(score) && grid == old(grid)
                && selectedTower == old(selectedTower)
      ensures outcome == Done ==> selectedTower == null
      ensures outcome == Done ==>
                var pos := CellIndexOf(x, y, gridRows, gridCols).value;
                var cell := old(grid[pos.row][pos.col]);
                |placedTowers| == |old(placedTowers)| + 1
                && var t := placedTowers[|placedTowers| - 1];
                placedTowers == old(placedTowers) + [t] && fresh(t)
                && t.IsNew(kind, Point(CellCenter(pos.col), CellCenter(pos.row)))
                && gold == old(gold) - Stats(kind).cost && score == old(score) + Stats(kind).cost
                && grid == old(grid[pos.row := grid[pos.row][pos.col := cell.(occupied := true, tower := t)]])
    {
      var pos := CellIndexOf(x, y, gridRows, gridCols);
      if pos.None? || grid[pos.value.row][pos.value.col].occupied || grid[pos.value.row][pos.value.col].onPath {
        return InvalidPlacement;
      }
      var stats := Stats(kind);
      if gold < stats.cost {
        return InsufficientFunds;
      }
      BuildTower(kind, pos.value.row, pos.value.col);
      selectedTower := null;
      outcome := Done;
    }

    /** The successful part of placeTower: a new tower of type `kind` on the
        free cell (r, c), paid for from gold and counted in the score. */
    method BuildTower(kind: TowerKind, r: nat, c: nat)
      requires Valid() && r < gridRows && c < gridCols
      requires !grid[r][c].occupied && !grid[r][c].onPath
      modifies `placedTowers, `gold, `score, `grid
      ensures Valid()
      ensures |placedTowers| == |old(placedTowers)| + 1
      ensures var t := placedTowers[|placedTowers| - 1];
        placedTowers == old(placedTowers) + [t] && fresh(t)
        && t.IsNew(kind, Point(CellCenter(c), CellCenter(r)))
        && gold == old(gold) - Stats(kind).cost && score == old(score) + Stats(kind).cost
        && grid == old(grid[r := grid[r][c := grid[r][c].(occupied := true, tower := t)]])
    {
      var stats := Stats(kind);
      var cell := grid[r][c];
      StatsPositive(kind);
      var tower := new Tower.Place(kind, Point(cell.x, cell.y));
      Built(Snapshot(), r, c, tower);
      placedTowers := placedTowers + [tower];
      grid := grid[r := grid[r][c := cell.(occupied := true, tower := tower)]];
      gold := gold - stats.cost;
      score := score + stats.cost;
    }

    /** selectExistingTower, and the lookup of upgradeTowerAt and sellTowerAt:
        the index of the first tower within 25 of (x, y), or |placedTowers|. */
    method TowerAt(x: real, y: real) returns (index: nat)
      ensures index == FirstNear(placedTowers, Point(x, y))
    {
      index := 0;
      while index < |placedTowers|
        invariant index <= |placedTowers|
        invariant forall j :: 0 <= j < index ==> !Within(Point(x, y), placedTowers[j].Position(), SelectRadius)
      {
        if Within(Point(x, y), placedTowers[index].Position(), SelectRadius) {
          return;
        }
        index := index + 1;
      }
    }

    /** selectExistingTower: the first tower within 25 becomes the selection;
        with none there the selection is unchanged. */
    method SelectExistingTower(x: real, y: real)
      requires Valid()
      modifies `selectedTower
      ensures Valid()
      ensures var k := FirstNear(placedTowers, Point(x, y));
        selectedTower == if k < |placedTowers| then placedTowers[k] else old(selectedTower)
    {
      var k := TowerAt(x, y);
      if k < |placedTowers| {
        selectedTower := placedTowers[k];
      }
    }

    function GetUpgradeCost(tower: Tower): int
      reads tower`level
    {
      UpgradeCost(tower.cost, tower.level)
    }

    /** What upgradeTower does to `tower` and gold: nothing when gold is below
        the upgrade price; otherwise the price is paid, the level rises by one,
        damage, range and fire rate grow by 30%, 10% and 20%, and the sell value
        becomes floor(1.4 * sellValue). */
    twostate predicate Upgraded(tower: Tower, outcome: Outcome)
      reads this, tower
    {
      var price := UpgradeCost(tower.cost, old(tower.level));
      outcome == (if old(gold) < price then InsufficientFunds else Done)
      && (outcome == InsufficientFunds ==>
            gold == old(gold) && tower.level == old(tower.level) && tower.damage == old(tower.damage)
            && tower.range == old(tower.range) && tower.fireRate == old(tower.fireRate)
            && tower.sellValue == old(tower.sellValue))
      && (outcome == Done ==>
            gold == old(gold) - price && tower.level == old(tower.level) + 1
            && tower.damage == old(tower.damage) * 1.3 && tower.range == old(tower.range) * 1.1
            && tower.fireRate == old(tower.fireRate) * 1.2
            && tower.sellValue == UpgradedSellValue(old(tower.sellValue)))
    }

    method UpgradeTower(tower: Tower) returns (outcome: Outcome)
      requires Valid()
      modifies `gold, tower`level, tower`damage, tower`range, tower`fireRate, tower`sellValue
      ensures Valid()
      ensures Upgraded(tower, outcome)
    {
      var upgradeCost := GetUpgradeCost(tower);
      if gold < upgradeCost {
        return InsufficientFunds;
      }
      gold := gold - upgradeCost;
      tower.Upgrade();
      outcome := Done;
    }

    /** upgradeTowerAt: the first tower within 25 is upgraded; with none there
        nothing changes. */
    method UpgradeTowerAt(x: real, y: real) returns (outcome: Outcome)
      requires Valid()
      modifies `gold, placedTowers`level, placedTowers`damage, placedTowers`range,
               placedTowers`fireRate, placedTowers`sellValue
      ensures Valid()
      ensures var k := FirstNear(placedTowers, Point(x, y));
        (outcome == NoTowerHere <==> k == |placedTowers|)
        && (k == |placedTowers| ==> gold == old(gold))
        && (k < |placedTowers| ==> Upgraded(placedTowers[k], outcome))
        && forall j :: 0 <= j < |placedTowers| && j != k ==> unchanged(placedTowers[j])
    {
      var k := TowerAt(x, y);
      if k == |placedTowers| {
        return NoTowerHere;
      }
      DistinctAt(placedTowers, k);
      outcome := UpgradeTower(placedTowers[k]);
    }

    /** sellTower: the tower's cell is freed, the tower leaves the list and its
        sell value is paid out. */
    method SellTower(tower: Tower, index: nat)
      requires Valid() && index < |placedTowers| && placedTowers[index] == tower
      modifies `placedTowers, `gold, `grid
      ensures Valid()
      ensures placedTowers == old(placedTowers[..index] + placedTowers[index + 1..])
      ensures gold == old(gold) + tower.sellValue
      ensures CellIndexOf(tower.x, tower.y, gridRows, gridCols).Some?
      ensures var pos := CellIndexOf(tower.x, tower.y, gridRows, gridCols).value;
        grid == old(grid[pos.row := grid[pos.row][pos.col := grid[pos.row][pos.col].(occupied := false, tower := null)]])
    {
      Sold(Snapshot(), index);
      var gridPos := CellIndexOf(tower.x, tower.y, gridRows, gridCols);
      if gridPos.Some? {
        var r, c := gridPos.value.row, gridPos.value.col;
        grid := grid[r := grid[r][c := grid[r][c].(occupied := false, tower := null)]];
      }
      placedTowers := placedTowers[..index] + placedTowers[index + 1..];
      gold := gold + tower.sellValue;
    }

    /** sellTowerAt: the first tower within 25 is sold; with none there
        nothing changes. */
    method SellTowerAt(x: real, y: real) returns (outcome: Outcome)
      requires Valid()
      modifies `placedTowers, `gold, `grid
      ensures Valid()
      ensures var k := old(FirstNear(placedTowers, Point(x, y)));
        (outcome == NoTowerHere <==> k == |old(placedTowers)|)
        && (outcome == NoTowerHere ==> placedTowers == old(placedTowers) && gold == old(gold) && grid == old(grid))
        && (outcome == Done ==>
              placedTowers == old(placedTowers[..k] + placedTowers[k + 1..])
              && gold == old(gold + placedTowers[k].sellValue)
              && var t := old(placedTowers[k]);
                 CellIndexOf(t.x, t.y, gridRows, gridCols).Some?
                 && var pos := CellIndexOf(t.x, t.y, gridRows, gridCols).value;
                    grid == old(grid[pos.row := grid[pos.row][pos.col := grid[pos.row][pos.col].(occupied := false, tower := null)]]))
    {
      var k := TowerAt(x, y);
      if k == |placedTowers| {
        return NoTowerHere;
      }
      SellTower(placedTowers[k], k);
      outcome := Done;
    }

    /** spawnWave. */
    method SpawnWave()
      requires Valid()
      modifies `enemiesInWave, `enemiesSpawned, `enemySpawnTimer, `waveActive
      ensures Valid()
      ensures Controller() == Waves.StartWave(old(Controller()))
    {
      enemiesInWave := WaveSize(wave);
      enemiesSpawned := 0;
      enemySpawnTimer := 0.0;
      waveActive := true;
      Untouched(Snapshot());
    }

    /** Enemy `e` has joined the game: it is appended to the live list and
        to the set of all enemies, and counted as spawned. */
    twostate predicate Joined(new e: Enemy)
      reads `enemies, `allEnemies, `enemiesSpawned
    {
      enemiesSpawned == old(enemiesSpawned) + 1 && enemies == old(enemies) + [e] && allEnemies == old(allEnemies) + {e}
    }

    /** The live list has gained exactly the enemies counted as spawned, at
        its end, each of them new, alive, without effects and standing at
        the first waypoint, not at the end of the path. */
    twostate predicate Arrived()
      reads `enemies, `enemiesSpawned, `enemyPath, enemies
    {
      old(enemies) <= enemies && |enemies| == old(|enemies|) + (enemiesSpawned - old(enemiesSpawned))
      && (old(|enemies|) < |enemies| ==> |enemyPath| > 0)
      && forall i :: old(|enemies|) <= i < |enemies| ==>
           fresh(enemies[i]) && !enemies[i].isDead && enemies[i].effects == []
           && enemies[i].Progress() == Motion.Motion(enemyPath[0], 0, false)
    }

    /** spawnEnemy: unless the wave is fully spawned, an enemy of the chosen
        type (`choice` is the random index) enters at the first waypoint with
        health and reward scaled for the current wave. */
    method SpawnEnemy(choice: nat)
      requires Valid() && choice < |EnemyTypes| && |enemyPath| > 0
      modifies `enemies, `enemiesSpawned, `allEnemies
      ensures Valid()
      ensures old(enemiesSpawned) >= old(enemiesInWave) ==>
                enemies == old(enemies) && enemiesSpawned == old(enemiesSpawned) && allEnemies == old(allEnemies)
      ensures old(enemiesSpawned) < old(enemiesInWave) ==>
                |enemies| > 0 && var e := enemies[|enemies| - 1];
                Joined(e) && fresh(e) && e.IsSpawnedAs(EnemyTypes[choice], enemyPath[0], wave)
      ensures Arrived()
    {
      if enemiesSpawned >= enemiesInWave {
        return;
      }
      var enemyType := EnemyTypes[choice];
      assert enemyType.health >= 0 && enemyType.reward >= 0;
      var enemy := new Enemy.Spawn(enemyType, enemyPath[0], wave);
      ghost var before := Snapshot();
      Spawned(before, enemy);
      enemies := enemies + [enemy];
      allEnemies := allEnemies + {enemy};
      enemiesSpawned := enemiesSpawned + 1;
      assert Snapshot() == before.(spawned := before.spawned + {enemy}, enemies := before.enemies + [enemy]);
    }

    /** gameOver and gameWin: the game stops and pauses. */
    method EndGame()
      requires Valid()
      modifies `gameRunning, `isPaused
      ensures Valid()
      ensures Controller() == Waves.Stop(old(Controller()))
    {
      gameRunning := false;
      isPaused := true;
    }

    /** completeWave. */
    method CompleteWave()
      requires Valid()
      modifies `waveActive, `wave, `gold, `score, `waveTimer, `gameRunning, `isPaused
      ensures Valid()
      ensures Controller() == Waves.CompleteWave(old(Controller()))
    {
      AdvanceWave();
      if wave > MaxWaves {
        EndGame();
      } else {
        waveTimer := WaveDelay;
      }
    }

    /** The first part of completeWave: the wave is over, the counter
        advances, and the bonus for the new wave is paid in gold and five
        times over in score. */
    method AdvanceWave()
      requires Valid()
      modifies `waveActive, `wave, `gold, `score
      ensures Valid()
      ensures var w := old(wave) + 1;
        Controller() == old(Controller()).(waveActive := false, wave := w,
                                           gold := old(gold) + WaveBonus(w), score := old(score) + WaveBonus(w) * 5)
    {
      waveActive := false;
      wave := wave + 1;
      var bonus := WaveBonus(wave);
      gold := gold + bonus;
      score := score + bonus * 5;
      Untouched(Snapshot());
    }

    // ---------------------------------------------------------------------
    // Enemies.

    /** killEnemy: the enemy leaves the list, its reward is paid and scored
        ten times, and the first tower targeting it is credited. */
    method KillEnemy(enemy: Enemy, index: nat)
      requires index < |enemies| && enemies[index] == enemy && Distinct(placedTowers)
      modifies `enemies, `gold, `score, placedTowers`kills, placedTowers`target
      ensures enemies == old(enemies[..index] + enemies[index + 1..])
      ensures forall j :: 0 <= j < index ==> enemies[j] == old(enemies[j])
      ensures gold == old(gold) + enemy.reward && score == old(score) + enemy.reward * 10
      ensures Records(placedTowers) == old(Credit(Records(placedTowers), enemy))
    {
      enemies := enemies[..index] + enemies[index + 1..];
      gold := gold + enemy.reward;
      score := score + enemy.reward * 10;
      assert Records(placedTowers) == old(Records(placedTowers));
      CreditKiller(enemy);
    }

    /** killEnemy's search for the tower to credit: the first tower
        targeting `enemy`, if any, gets one more kill and loses its target. */
    method CreditKiller(enemy: Enemy)
      requires Distinct(placedTowers)
      modifies placedTowers`kills, placedTowers`target
      ensures Records(placedTowers) == old(Credit(Records(placedTowers), enemy))
    {
      ghost var records := Records(placedTowers);
      var i := 0;
      while i < |placedTowers| && placedTowers[i].target != enemy
        modifies {}
        invariant i <= |placedTowers| && forall j :: 0 <= j < i ==> records[j].target != enemy
      {
        i := i + 1;
      }
      assert i < |placedTowers| ==> records[i].target == enemy;
      assert i == FirstAiming(records, enemy);
      if i < |placedTowers| {
        var tower := placedTowers[i];
        assert Credit(records, enemy) == records[i := Record(null, tower.kills + 1)];
        tower.CreditKill();
        DistinctAt(placedTowers, i);
        RecordsUpdated(placedTowers, records, i);
      }
    }

    /** moveEnemy: one `Move` along the path, the step length being the speed
        slowed by every effect, per 1/60 second, times the game speed;
        `advance` is the floating-point step towards the next waypoint. */
    method MoveEnemy(enemy: Enemy, dt: real, advance: Stepper)
      modifies enemy`x, enemy`y, enemy`pathIndex, enemy`reachedEnd
      ensures enemy.Progress() == Move(old(enemy.Progress()), enemyPath, StepLength(enemy.speed, old(enemy.effects), dt, gameSpeed), advance)
    {
      if enemy.pathIndex >= |enemyPath| - 1 {
        enemy.reachedEnd := true;
        return;
      }
      var target := enemyPath[enemy.pathIndex + 1];
      if Closer(target, enemy.Position(), WaypointRadius) {
        enemy.pathIndex := enemy.pathIndex + 1;
        return;
      }
      var currentSpeed := enemy.speed;
      for k := 0 to |enemy.effects|
        modifies {}
        invariant currentSpeed == enemy.speed * SlowFactor(enemy.effects[..k])
      {
        SlowFactorAppend(enemy.effects[..k], enemy.effects[k]);
        assert enemy.effects[..k + 1] == enemy.effects[..k] + [enemy.effects[k]];
        currentSpeed := currentSpeed * enemy.effects[k].multiplier;
      }
      assert enemy.effects[..|enemy.effects|] == enemy.effects;
      var moveSpeed := currentSpeed * dt * 60.0 * gameSpeed as real;
      assert moveSpeed == StepLength(enemy.speed, enemy.effects, dt, gameSpeed);
      var next := advance(enemy.Position(), target, moveSpeed);
      assert Move(enemy.Progress(), enemyPath, moveSpeed, advance) == enemy.Progress().(pos := next);
      enemy.x, enemy.y := next.x, next.y;
    }

    /** updateEnemyEffects: the effects' durations run down by `dt` and the
        expired ones are dropped, the others keeping their order. */
    method UpdateEnemyEffects(enemy: Enemy, dt: real)
      modifies enemy`effects
      ensures enemy.effects == Expire(old(enemy.effects), dt)
    {
      ghost var effects0 := enemy.effects;
      var i := |enemy.effects|;
      while i > 0
        invariant 0 <= i <= |effects0|
        invariant enemy.effects == effects0[..i] + Expire(effects0[i..], dt)
      {
        i := i - 1;
        ghost var rest := Expire(effects0[i + 1..], dt);
        assert effects0[i..][0] == effects0[i] && effects0[i..][1..] == effects0[i + 1..];
        assert effects0[..i + 1] == effects0[..i] + [effects0[i]];
        assert enemy.effects[..i] == effects0[..i] && enemy.effects[i] == effects0[i];
        assert enemy.effects[i + 1..] == rest;
        var effect := Tick(enemy.effects[i], dt);
        if effect.duration <= 0.0 {
          enemy.effects := enemy.effects[..i] + enemy.effects[i + 1..];
        } else {
          enemy.effects := enemy.effects[..i] + [effect] + enemy.effects[i + 1..];
          assert enemy.effects == effects0[..i] + ([effect] + rest);
        }
      }
    }

    /** The part of the game a sweep of updateEnemies over the enemies
        `walked` reads and writes. */
    ghost function SweepOf(walked: seq<Enemy>): Sweep
      reads `enemies, `gold, `score, `lives, `placedTowers, placedTowers`target, placedTowers`kills
      reads walked`x, walked`y, walked`pathIndex, walked`reachedEnd, walked`effects, walked`isDead
    {
      Sweep(enemies, gold, score, lives, Records(placedTowers), States(walked))
    }

    /** One pass of updateEnemies' loop, on the enemy at `index`: a killed
        enemy is removed and paid for, an enemy at the end is removed for one
        life, any other enemy moves and has its effects expired. Of the
        enemies `walked`, only this one changes. */
    method UpdateEnemyAt(enemy: Enemy, index: nat, dt: real, advance: Stepper, ghost walked: seq<Enemy>)
      requires index < |enemies| && enemies[index] == enemy
      requires index < |walked| && walked[index] == enemy && Distinct(walked) && Distinct(placedTowers)
      modifies `enemies, `gold, `score, `lives
      modifies enemy`x, enemy`y, enemy`pathIndex, enemy`reachedEnd, enemy`effects
      modifies placedTowers`kills, placedTowers`target
      ensures SweepOf(walked) == SweepAt(old(SweepOf(walked)), index, enemyPath, dt, gameSpeed, advance)
      ensures index <= |enemies| && forall j :: 0 <= j < index ==> enemies[j] == old(enemies[j])
    {
      if enemy.isDead {
        SweepKilled(enemy, index, dt, advance, walked);
      } else if enemy.reachedEnd {
        SweepEscaped(enemy, index, dt, advance, walked);
      } else {
        SweepInPlay(enemy, index, dt, advance, walked);
      }
    }

    /** The pass at `index` over a killed enemy: killEnemy. */
    method SweepKilled(enemy: Enemy, index: nat, dt: real, advance: Stepper, ghost walked: seq<Enemy>)
      requires index < |enemies| && enemies[index] == enemy
      requires index < |walked| && walked[index] == enemy && Distinct(walked) && Distinct(placedTowers)
      requires enemy.isDead
      modifies `enemies, `gold, `score, placedTowers`kills, placedTowers`target
      ensures SweepOf(walked) == SweepAt(old(SweepOf(walked)), index, enemyPath, dt, gameSpeed, advance)
      ensures index <= |enemies| && forall j :: 0 <= j < index ==> enemies[j] == old(enemies[j])
    {
      ghost var w := SweepOf(walked);
      assert w.states[index] == enemy.State();
      SweepAtKilled(w, index, enemyPath, dt, gameSpeed, advance);
      KillEnemy(enemy, index);
      assert States(walked) == w.states;
    }

    /** The pass at `index` over an enemy at the end of the path: it leaves
        the list and a life is lost. */
    method SweepEscaped(enemy: Enemy, index: nat, dt: real, advance: Stepper, ghost walked: seq<Enemy>)
      requires index < |enemies| && enemies[index] == enemy
      requires index < |walked| && walked[index] == enemy && Distinct(walked) && Distinct(placedTowers)
      requires !enemy.isDead && enemy.reachedEnd
      modifies `enemies, `lives
      ensures SweepOf(walked) == SweepAt(old(SweepOf(walked)), index, enemyPath, dt, gameSpeed, advance)
      ensures index <= |enemies| && forall j :: 0 <= j < index ==> enemies[j] == old(enemies[j])
    {
      ghost var w := SweepOf(walked);
      assert w.states[index] == enemy.State();
      SweepAtEscaped(w, index, enemyPath, dt, gameSpeed, advance);
      enemies := enemies[..index] + enemies[index + 1..];
      lives := lives - 1;
    }

    /** The pass at `index` over an enemy in play: moveEnemy, then
        updateEnemyEffects. */
    method SweepInPlay(enemy: Enemy, index: nat, dt: real, advance: Stepper, ghost walked: seq<Enemy>)
      requires index < |enemies| && enemies[index] == enemy
      requires index < |walked| && walked[index] == enemy && Distinct(walked) && Distinct(placedTowers)
      requires !enemy.isDead && !enemy.reachedEnd
      modifies enemy`x, enemy`y, enemy`pathIndex, enemy`reachedEnd, enemy`effects
      ensures SweepOf(walked) == SweepAt(old(SweepOf(walked)), index, enemyPath, dt, gameSpeed, advance)
      ensures index <= |enemies| && forall j :: 0 <= j < index ==> enemies[j] == old(enemies[j])
    {
      ghost var w := SweepOf(walked);
      ghost var state := enemy.State();
      assert w.states[index] == state;
      SweepAtInPlay(w, index, enemyPath, dt, gameSpeed, advance);
      MoveEnemy(enemy, dt, advance);
      UpdateEnemyEffects(enemy, dt);
      assert enemy.State() == Step(state, enemyPath, dt, gameSpeed, advance);
      DistinctAt(walked, index);
      StatesUpdated(walked, w.states, index);
    }

    /** updateEnemies, walking the list backwards: the new state is the sweep
        of the old one (see `SweepAllSpec` for what a sweep amounts to). */
    method UpdateEnemies(dt: real, advance: Stepper)
      requires Distinct(enemies) && Distinct(placedTowers)
      modifies `enemies, `gold, `score, `lives
      modifies enemies`x, enemies`y, enemies`pathIndex, enemies`reachedEnd, enemies`effects
      modifies placedTowers`kills, placedTowers`target
      ensures SweepOf(old(enemies)) == SweepAll(old(SweepOf(enemies)), enemyPath, dt, gameSpeed, advance)
    {
      ghost var removed, start := enemies, SweepOf(enemies);
      var i := |enemies|;
      while i > 0
        invariant 0 <= i <= |removed| && i <= |enemies| && forall j :: 0 <= j < i ==> enemies[j] == removed[j]
        invariant SweepOf(removed) == SweepDown(start, |removed|, i, enemyPath, dt, gameSpeed, advance)
      {
        i := i - 1;
        var enemy := enemies[i];
        UpdateEnemyAt(enemy, i, dt, advance, removed);
      }
    }

    // ---------------------------------------------------------------------
    // Towers.

    /** findTarget: the living enemy within range that is furthest along the
        path, the first such on ties (the comparison is strict), or null. */
    method FindTarget(tower: Tower) returns (best: Enemy?)
      ensures best == BestTarget(tower, enemies) && IsBestTarget(tower, enemies, best)
      ensures best != null ==> best in enemies
    {
      best := null;
      var bestProgress: int := -1;
      for k := 0 to |enemies|
        invariant best == BestTarget(tower, enemies[..k])
        invariant bestProgress == if best == null then -1 else best.pathIndex
      {
        assert enemies[..k + 1][..k] == enemies[..k];
        var enemy := enemies[k];
        if !enemy.isDead && Within(enemy.Position(), tower.Position(), tower.range) {
          if enemy.pathIndex > bestProgress {
            bestProgress := enemy.pathIndex;
            best := enemy;
          }
        }
      }
      assert enemies[..|enemies|] == enemies;
      BestTargetIsBest(tower, enemies);
    }

    /** getProjectileFromPool: the first free projectile of the pool, or else
        a blank new one, added to both the pool and the list. */
    method GetProjectileFromPool() returns (p: Projectile)
      requires PoolValid()
      modifies `projectiles, `projectilePool
      ensures PoolValid()
      ensures var k := old(FirstInactive(projectilePool));
        if k < old(|projectilePool|) then p == old(projectilePool[k]) && projectiles == old(projectiles)
        else fresh(p) && p.Blank() && projectiles == old(projectiles) + [p]
    {
      var i := 0;
      while i < |projectilePool| && projectilePool[i].active
        modifies {}
        invariant i <= |projectilePool| && forall j :: 0 <= j < i ==> projectilePool[j].active
      {
        i := i + 1;
      }
      assert i < |projectilePool| ==> !projectilePool[i].active;
      assert i == FirstInactive(projectilePool);
      if i < |projectilePool| {
        return projectilePool[i];
      }
      p := new Projectile();
      DistinctAppend(projectiles, p);
      projectilePool := projectilePool + [p];
      projectiles := projectiles + [p];
    }

    /** returnProjectileToPool: the projectile is free again and aims at nothing. */
    method ReturnProjectileToPool(p: Projectile)
      modifies p`active, p`target
      ensures !p.active && p.target == null
    {
      p.active := false;
      p.target := null;
    }

    /** The projectile list has only grown, and whatever it gained is new. */
    twostate predicate Grown()
      reads `projectiles
    {
      old(projectiles) <= projectiles && forall i :: old(|projectiles|) <= i < |projectiles| ==> fresh(projectiles[i])
    }

    /** shootProjectile at time `now`: a projectile from the pool is fired
        from the tower at its target, and the tower's last shot is now. No
        other projectile changes. */
    method ShootProjectile(tower: Tower, now: int) returns (p: Projectile)
      requires PoolValid() && tower.target != null && tower.target in allEnemies && tower.damage >= 0.0
      modifies `projectiles, `projectilePool, projectiles, tower`lastShot
      ensures PoolValid() && Fired(p, tower) && tower.lastShot == now
      ensures var k := old(FirstInactive(projectiles));
        if k < old(|projectiles|) then p == old(projectiles[k]) && projectiles == old(projectiles)
        else fresh(p) && projectiles == old(projectiles) + [p]
      ensures forall q :: q in old(projectiles) && q != p ==> unchanged(q)
    {
      p := GetProjectileFromPool();
      p.Launch(tower);
      tower.lastShot := now;
    }

    /** The first half of updateTowers' pass over `tower`: it aims at its
        best target. */
    method AimTower(tower: Tower)
      modifies tower`target
      ensures tower.target == old(BestTarget(tower, enemies))
    {
      tower.target := FindTarget(tower);
    }

    /** The second half of the pass: when the tower has a target and its
        cooldown has passed, it fires, launching `shot` into the first free
        slot of the pool, and its last shot time becomes `now`; otherwise no
        projectile changes. */
    method FireTower(tower: Tower, now: int) returns (ghost shot: Option<Flight>)
      requires tower.fireRate > 0.0 && tower.damage >= 0.0
      requires PoolValid() && (tower.target != null ==> tower.target in allEnemies)
      modifies tower`lastShot, `projectiles, `projectilePool, projectiles
      ensures PoolValid() && Grown()
      ensures tower.lastShot == ShotTime(tower.target, old(tower.lastShot), now, tower.fireRate)
      ensures shot == if Fires(tower.target, old(tower.lastShot), now, tower.fireRate) then Some(ShotFrom(tower)) else None
      ensures Flights(projectiles) == Shoot(old(Flights(projectiles)), shot)
    {
      if tower.target != null && Ready(now, tower.lastShot, tower.fireRate) {
        ghost var ps, fs := projectiles, Flights(projectiles);
        FirstInactiveFree(projectiles);
        label before:
        var p := ShootProjectile(tower, now);
        shot := Some(ShotFrom(tower));
        ghost var k := FirstFree(fs);
        assert p.View() == ShotFrom(tower);
        forall i | 0 <= i < |fs| && i != k
          ensures Flights(projectiles)[i] == fs[i]
        {
          DistinctAt(projectiles, i);
          var q := ps[i];
          assert q == projectiles[i] && q in old@before(projectiles) && q != p;
          assert q.View() == old@before(q.View());
        }
      } else {
        shot := None;
      }
    }

    /** updateTowers' pass over one tower: it aims at its best target, and
        fires when it has one and its cooldown has passed (see `Turned`). */
    method UpdateTower(tower: Tower, now: int) returns (ghost shot: Option<Flight>)
      requires tower.fireRate > 0.0 && tower.damage >= 0.0 && PoolValid() && EnemiesValid()
      modifies tower`target, tower`lastShot, `projectiles, `projectilePool, projectiles
      ensures PoolValid() && Grown()
      ensures forall g {:trigger OpenTick(g)} :: OpenTick(g) ==>
                Turned(tower, now, old(BestTarget(tower, enemies)), old(tower.lastShot), shot)
                && Flights(projectiles) == Shoot(old(Flights(projectiles)), shot)
      ensures unchanged(enemies)
    {
      AimTower(tower);
      shot := FireTower(tower, now);
    }

    /** updateTowers at time `now`: every tower, in list order, aims at its
        best target and fires when it has one and its cooldown has passed;
        `volley` holds each tower's shot, and the flights are the old ones
        with the shots loaded in tower order. */
    method UpdateTowers(now: int) returns (ghost volley: seq<Option<Flight>>)
      requires PoolValid() && TowersValid() && EnemiesValid()
      modifies placedTowers`target, placedTowers`lastShot, `projectiles, `projectilePool, projectiles
      ensures PoolValid() && TowersValid() && EnemiesValid() && Grown()
      ensures TurnedUpTo(placedTowers, |placedTowers|, now, old(Aims(placedTowers, enemies)), old(LastShots(placedTowers)), volley)
      ensures Flights(projectiles) == Volley(old(Flights(projectiles)), volley)
    {
      var ts := placedTowers;
      ghost var aims, shots, fs := Aims(ts, enemies), LastShots(ts), Flights(projectiles);
      volley := [];
      for k := 0 to |ts|
        invariant PoolValid() && Grown()
        invariant TurnedUpTo(ts, k, now, aims, shots, volley) && PendingFrom(ts, k, shots) && Aims(placedTowers, enemies) == aims
        invariant Flights(projectiles) == Volley(fs, volley)
      {
        volley := TurnNext(ts[k], k, now, aims, shots, fs, volley);
      }
    }

    /** One iteration of updateTowers: tower `k` has its pass. */
    method TurnNext(tower: Tower, k: nat, now: int, ghost aims: seq<Enemy?>, ghost shots: seq<int>, ghost fs: seq<Flight>,
                    ghost volley: seq<Option<Flight>>) returns (ghost volley': seq<Option<Flight>>)
      requires PoolValid() && EnemiesValid() && Distinct(placedTowers) && k < |placedTowers| && tower == placedTowers[k]
      requires tower.fireRate > 0.0 && tower.damage >= 0.0
      requires TurnedUpTo(placedTowers, k, now, aims, shots, volley) && PendingFrom(placedTowers, k, shots)
      requires Aims(placedTowers, enemies) == aims
      requires Flights(projectiles) == Volley(fs, volley)
      modifies tower`target, tower`lastShot, `projectiles, `projectilePool, projectiles
      ensures PoolValid() && Grown()
      ensures TurnedUpTo(placedTowers, k + 1, now, aims, shots, volley') && PendingFrom(placedTowers, k + 1, shots)
      ensures Flights(projectiles) == Volley(fs, volley') && Aims(placedTowers, enemies) == aims
    {
      var ts := placedTowers;
      DistinctAt(ts, k);
      AimsAt(ts, enemies);
      var shot := UpdateTower(tower, now);
      volley' := volley + [shot];
      assert volley'[..k] == volley;
      assert OpenTick(0);
    }

    // ---------------------------------------------------------------------
    // Projectiles.

    /** chainLightning from `src`: walking the list, each other living enemy
        within 60 is struck for 8 and dies at 0 or below, until three have
        been struck. */
    method ChainLightning(src: Enemy)
      requires Distinct(enemies)
      modifies enemies`health, enemies`isDead
      ensures ChainApplied(src, enemies)
      ensures src.health == old(src.health) && src.isDead == old(src.isDead)
      ensures forall j :: 0 <= j < |enemies| ==>
                enemies[j].health <= old(enemies[j].health) && (old(enemies[j].isDead) ==> enemies[j].isDead)
    {
      var chained := 0;
      ghost var struck := Strikes(src, enemies);
      forall j | 0 <= j < |enemies| && struck[j]
        ensures !enemies[j].isDead
      {
        assert ChainVictim(src, enemies, j);
      }
      for k := 0 to |enemies|
        invariant chained == if old(ChainCount(src, enemies[..k])) < MaxChains then old(ChainCount(src, enemies[..k])) else MaxChains
        invariant forall j :: 0 <= j < k && enemies[j] != src ==> if struck[j] then Struck(enemies[j]) else Spared(enemies[j])
        invariant forall j :: k <= j < |enemies| ==> Spared(enemies[j])
        invariant Spared(src)
      {
        var enemy := enemies[k];
        DistinctAt(enemies, k);
        assert enemies[..k + 1][..k] == enemies[..k];
        assert struck[k] == (old(ChainEligible(src, enemy)) && chained < MaxChains);
        assert old(ChainEligible(src, enemy)) == ChainEligible(src, enemy);
        chained := enemy.ChainHit(src, chained);
      }
    }

    /** hitTarget, applyTowerEffects included: see `HitDealt`. */
    method HitTarget(p: Projectile)
      requires p.target != null && Distinct(enemies)
      modifies p.target`health, p.target`isDead, p.target`effects, enemies`health, enemies`isDead
      ensures HitDealt(p.target, p.damage, p.kind, enemies)
      ensures p.damage >= 0.0 ==> forall x :: x in allEnemies ==> EnemyWorn(x)
    {
      var enemy := p.target;
      enemy.health := enemy.health - p.damage;
      ApplyTowerEffects(p.kind, enemy);
      if enemy.health <= 0.0 {
        enemy.isDead := true;
      }
    }

    /** applyTowerEffects: a frost hit attaches one FrostSlow to `enemy`, a
        lightning hit sets off a chain from it, any other hit does nothing. */
    method ApplyTowerEffects(kind: Option<TowerKind>, enemy: Enemy)
      requires Distinct(enemies)
      modifies enemy`effects, enemies`health, enemies`isDead
      ensures enemy.effects == if kind == Some(Frost) then old(enemy.effects) + [FrostSlow] else old(enemy.effects)
      ensures enemy.health == old(enemy.health) && enemy.isDead == old(enemy.isDead)
      ensures kind == Some(Lightning) ==> ChainApplied(enemy, enemies)
      ensures kind != Some(Lightning) ==>
                forall j :: 0 <= j < |enemies| ==> enemies[j].health == old(enemies[j].health) && enemies[j].isDead == old(enemies[j].isDead)
      ensures forall j :: 0 <= j < |enemies| ==>
                enemies[j].health <= old(enemies[j].health) && (old(enemies[j].isDead) ==> enemies[j].isDead)
    {
      if kind == Some(Frost) {
        enemy.effects := enemy.effects + [FrostSlow];
      } else if kind == Some(Lightning) {
        ChainLightning(enemy);
      }
    }

    /** updateProjectiles' pass over `p`: a free projectile is skipped; one
        whose target is missing or dead is released; one within 8 of its
        target hits it and is released; any other takes one step towards its
        target. See `ProjectileStepped`. What the pass did to the enemies
        (`HitDealt` on a hit, nothing otherwise) is stated under an `Open`
        guard, so that the loop of `UpdateProjectiles` does not carry it. */
    method StepProjectile(p: Projectile, dt: real, advance: Stepper)
      requires PoolValid() && EnemiesValid() && p in projectiles
      modifies p`active, p`target, p`x, p`y, allEnemies`health, allEnemies`isDead, allEnemies`effects
      ensures PoolValid() && EnemiesValid()
      ensures ProjectileStepped(p, old(p.target), dt, gameSpeed, advance)
      ensures forall k {:trigger Open(k)} :: Open(k) ==>
        var e := old(p.target);
        if old(p.active) && e != null && !old(e.isDead) && Closer(e.Position(), old(p.Position()), HitRadius)
        then HitDealt(e, p.damage, p.kind, enemies)
        else unchanged(allEnemies)
      ensures forall x :: x in allEnemies ==> EnemyWorn(x) && x.Progress() == old(x.Progress())
      ensures forall t :: t in placedTowers ==> t.kills == old(t.kills) && t.range == old(t.range)
    {
      if !p.active {
        return;
      }
      var e := p.target;
      if e == null || e.isDead {
        ReturnProjectileToPool(p);
        return;
      }
      if Closer(e.Position(), p.Position(), HitRadius) {
        HitTarget(p);
        ReturnProjectileToPool(p);
      } else {
        var next := HomingStep(p.Position(), e.Position(), p.speed, dt, gameSpeed, advance);
        p.x, p.y := next.x, next.y;
        assert p.Position() == next;
      }
    }

    /** updateProjectiles: every projectile takes its pass, in list order.
        Each ends as `ProjectileStepped` says, the enemies only wear down,
        and the pool stays well formed. */
    method UpdateProjectiles(dt: real, advance: Stepper)
      requires PoolValid() && EnemiesValid() && TowersValid()
      modifies projectiles`active, projectiles`target, projectiles`x, projectiles`y,
               allEnemies`health, allEnemies`isDead, allEnemies`effects
      ensures PoolValid() && EnemiesValid() && TowersValid()
      ensures forall i :: 0 <= i < |projectiles| ==>
                ProjectileStepped(projectiles[i], old(projectiles[i].target), dt, gameSpeed, advance)
      ensures forall x :: x in allEnemies ==> EnemyWorn(x) && x.Progress() == old(x.Progress())
      ensures forall t :: t in placedTowers ==> t.kills == old(t.kills) && t.range == old(t.range)
    {
      var ps := projectiles;
      for k := 0 to |ps|
        invariant PoolValid() && EnemiesValid()
        invariant forall i :: 0 <= i < k ==> ProjectileStepped(ps[i], old(ps[i].target), dt, gameSpeed, advance)
        invariant forall i :: k <= i < |ps| ==> Unstepped(ps[i])
        invariant forall x :: x in allEnemies ==> EnemyWorn(x)
      {
        DistinctAt(ps, k);
        StepProjectile(ps[k], dt, advance);
      }
    }

    // ---------------------------------------------------------------------
    // The tick.

    /** The first part of updateGame: the timers run and at most one enemy
        spawns, as `Waves.Begin` says. */
    method BeginTick(dt: real, choice: nat)
      requires Valid() && choice < |EnemyTypes| && |enemyPath| > 0
      modifies `enemySpawnTimer, `waveTimer, `enemies, `enemiesSpawned, `allEnemies
      ensures Valid()
      ensures Controller() == Waves.Begin(old(Controller()), dt)
      ensures forall e :: e in allEnemies ==> e in old(allEnemies) || fresh(e)
      ensures Arrived()
    {
      RunTimers(dt);
      SpawnDue(choice);
    }

    /** updateGame's timers: the spawn timer always runs, the countdown to
        the next wave only between waves. */
    method RunTimers(dt: real)
      modifies `enemySpawnTimer, `waveTimer
      ensures Controller() == Waves.TickTimers(old(Controller()), dt)
    {
      enemySpawnTimer := enemySpawnTimer + dt;
      if !waveActive && waveTimer > 0.0 {
        waveTimer := waveTimer - dt;
      }
    }

    /** updateGame's spawn: when an enemy is due, one spawns and the spawn
        timer restarts. */
    method SpawnDue(choice: nat)
      requires Valid() && choice < |EnemyTypes| && |enemyPath| > 0
      modifies `enemySpawnTimer, `enemies, `enemiesSpawned, `allEnemies
      ensures Valid()
      ensures var c := old(Controller());
        Controller() == if Waves.ShouldSpawn(c) then c.(enemiesSpawned := c.enemiesSpawned + 1, enemySpawnTimer := 0.0) else c
      ensures forall e :: e in allEnemies ==> e in old(allEnemies) || fresh(e)
      ensures Arrived()
    {
      if waveActive && enemySpawnTimer > SpawnInterval && enemiesSpawned < enemiesInWave {
        SpawnEnemy(choice);
        enemySpawnTimer := 0.0;
      }
    }

    /** What one run of updateEnemies amounts to, in terms of `fs`, the fates
        the enemies `swept` (the list before it) had before it: the enemies
        left are the ones in play, in their order, and none of them is dead;
        gold grows by the rewards of the killed ones and score by ten times
        that; a life is lost per enemy at the end of the path; every enemy
        swept took its `Step`; and the towers' records credit the killed ones. */
    twostate predicate Settled(swept: seq<Enemy>, fs: seq<Fate>, dt: real, advance: Stepper)
      reads `enemies, `gold, `score, `lives, `placedTowers, `enemyPath, `gameSpeed, enemies`isDead
      reads swept`x, swept`y, swept`pathIndex, swept`reachedEnd, swept`effects, swept`isDead
      reads placedTowers`target, placedTowers`kills
    {
      |fs| == |swept| && (forall i :: 0 <= i < |fs| ==> fs[i] == old(FateOf(swept[i].State())))
      && forall k {:trigger OpenTick(k)} :: OpenTick(k) ==>
      enemies == Survivors(swept, fs) && (forall e :: e in enemies ==> !e.isDead)
      && gold == old(gold) + Bounty(swept, fs) && score == old(score) + 10 * Bounty(swept, fs)
      && lives == old(lives) - Count(fs, Escaped)
      && States(swept) == Walk(old(States(swept)), enemyPath, dt, gameSpeed, advance)
      && Records(placedTowers) == CreditAll(old(Records(placedTowers)), swept, fs)
    }

    /** updateEnemies with what it amounts to (see `SweepAllSpec`): the
        enemies left are distinct and among those before. */
    method SettleEnemies(dt: real, advance: Stepper) returns (ghost fs: seq<Fate>)
      requires Distinct(enemies) && Distinct(placedTowers)
      modifies `enemies, `gold, `score, `lives
      modifies enemies`x, enemies`y, enemies`pathIndex, enemies`reachedEnd, enemies`effects
      modifies placedTowers`kills, placedTowers`target
      ensures Settled(old(enemies), fs, dt, advance)
      ensures Distinct(enemies) && forall e :: e in enemies ==> e in old(enemies)
    {
      ghost var w := SweepOf(enemies);
      fs := Fates(w.states);
      UpdateEnemies(dt, advance);
      SweepAllSpec(w, enemyPath, dt, gameSpeed, advance);
      SurvivorsSpec(w.enemies, fs);
      forall e | e in enemies
        ensures !e.isDead
      {
        var k :| 0 <= k < |w.enemies| && w.enemies[k] == e;
        assert fs[k] == InPlay;
      }
    }

    /** updateEnemies within a tick: the game stays well formed, with the
        accounting of `SettleEnemies`. */
    method SweepEnemies(dt: real, advance: Stepper) returns (ghost fs: seq<Fate>)
      requires Valid()
      modifies `enemies, `gold, `score, `lives
      modifies enemies`x, enemies`y, enemies`pathIndex, enemies`reachedEnd, enemies`effects
      modifies placedTowers`kills, placedTowers`target
      ensures Valid() && Controller() == old(Controller()).(lives := lives, gold := gold, score := score)
      ensures Settled(old(enemies), fs, dt, advance) && forall e :: e in enemies ==> !e.isDead
      ensures Flights(projectiles) == old(Flights(projectiles)) && LastShots(placedTowers) == old(LastShots(placedTowers))
    {
      ghost var before := Snapshot();
      fs := SettleEnemies(dt, advance);
      assert Snapshot() == before.(enemies := enemies);
      Thinned(before, enemies);
      assert Controller() == old(Controller()).(lives := lives, gold := gold, score := score);
      assert OpenTick(0);
    }

    /** updateTowers within a tick: the game stays well formed, nothing the
        wave controller reads changes, and the towers turn and shoot as
        `UpdateTowers` says. */
    method TickTowers(now: int) returns (ghost volley: seq<Option<Flight>>)
      requires Valid()
      modifies placedTowers`target, placedTowers`lastShot, `projectiles, `projectilePool, projectiles
      ensures Valid() && Controller() == old(Controller()) && enemies == old(enemies)
      ensures Grown()
      ensures TurnedUpTo(placedTowers, |placedTowers|, now, old(Aims(placedTowers, enemies)), old(LastShots(placedTowers)), volley)
      ensures Flights(projectiles) == Volley(old(Flights(projectiles)), volley)
      ensures forall f :: f in Volley(old(Flights(projectiles)), volley) ==> f.target == null || f.target in allEnemies
      ensures forall e :: e in allEnemies ==> e.Progress() == old(e.Progress())
      ensures forall t :: t in placedTowers ==> t.kills == old(t.kills) && t.range == old(t.range)
    {
      ghost var before := Snapshot();
      Listed(before);
      volley := UpdateTowers(now);
      assert Snapshot() == before.(pool := projectilePool, projectiles := projectiles);
      Relisted(Snapshot());
      assert Controller() == old(Controller());
      forall f | f in Flights(projectiles) ensures f.target == null || f.target in allEnemies {
        var i :| 0 <= i < |projectiles| && Flights(projectiles)[i] == f;
        assert projectiles[i].Sound(allEnemies);
      }
    }

    /** updateProjectiles within a tick: the game stays well formed and
        nothing the wave controller reads changes. */
    method TickProjectiles(dt: real, advance: Stepper)
      requires Valid()
      modifies projectiles`active, projectiles`target, projectiles`x, projectiles`y,
               allEnemies`health, allEnemies`isDead, allEnemies`effects
      ensures Valid() && Controller() == old(Controller()) && enemies == old(enemies)
      ensures forall i :: 0 <= i < |projectiles| ==> Flew(projectiles[i], old(Flights(projectiles))[i], dt, gameSpeed, advance)
      ensures forall x :: x in allEnemies ==> EnemyWorn(x) && x.Progress() == old(x.Progress())
      ensures forall t :: t in placedTowers ==> t.kills == old(t.kills) && t.range == old(t.range)
    {
      ghost var before, fs := Snapshot(), Flights(projectiles);
      Listed(before);
      UpdateProjectiles(dt, advance);
      forall i | 0 <= i < |projectiles|
        ensures Flew(projectiles[i], fs[i], dt, gameSpeed, advance)
      {
        assert fs[i] == old(projectiles[i].View());
      }
      assert Snapshot() == before;
      Relisted(before);
      assert Controller() == old(Controller());
    }

    /** updateTowers then updateProjectiles within a tick: the towers turn
        and shoot as `UpdateTowers` says, and then every projectile has its
        pass (`Flew`) from the flights the towers left. No enemy moves, no
        tower's kill count changes, and the wave controller's fields stay. */
    method ShootTick(dt: real, now: int, advance: Stepper) returns (ghost volley: seq<Option<Flight>>)
      requires Valid() && forall e :: e in enemies ==> !e.isDead
      modifies placedTowers`target, placedTowers`lastShot, `projectiles, `projectilePool, projectiles
      modifies allEnemies`health, allEnemies`isDead, allEnemies`effects
      ensures Valid() && Controller() == old(Controller()) && enemies == old(enemies)
      ensures TurnedUpTo(placedTowers, |placedTowers|, now, Furthests(placedTowers, enemies), old(LastShots(placedTowers)), volley)
      ensures |Volley(old(Flights(projectiles)), volley)| == |projectiles|
      ensures forall i :: 0 <= i < |projectiles| ==>
                Flew(projectiles[i], Volley(old(Flights(projectiles)), volley)[i], dt, gameSpeed, advance)
      ensures forall f :: f in Volley(old(Flights(projectiles)), volley) ==> f.target == null || f.target in allEnemies
      ensures forall e :: e in allEnemies ==> e.Progress() == old(e.Progress())
      ensures forall t :: t in placedTowers ==> t.kills == old(t.kills)
    {
      AliveAims(placedTowers, enemies);
      volley := TickTowers(now);
      label mid:
      TickProjectiles(dt, advance);
      forall e | e in enemies ensures e.x == old(e.x) && e.y == old(e.y) && e.pathIndex == old(e.pathIndex) {
        assert e.Progress() == old@mid(e.Progress()) == old(e.Progress());
      }
      FurthestsKept(placedTowers, enemies);
    }

    /** The middle part of updateGame: enemies, towers and projectiles are
        updated in that order (see `Played`). Only lives, gold and score of
        the wave controller's fields change. */
    method UpdateEntities(dt: real, now: int, advance: Stepper)
      returns (ghost fs: seq<Fate>, ghost walked: seq<EnemyState>, ghost records: seq<Record>, ghost volley: seq<Option<Flight>>)
      requires Valid()
      modifies `enemies, `gold, `score, `lives, `projectiles, `projectilePool
      modifies allEnemies`x, allEnemies`y, allEnemies`pathIndex, allEnemies`reachedEnd, allEnemies`effects,
               allEnemies`health, allEnemies`isDead
      modifies placedTowers`kills, placedTowers`target, placedTowers`lastShot
      modifies projectiles
      ensures Valid()
      ensures Controller() == old(Controller()).(lives := lives, gold := gold, score := score)
      ensures Played(old(enemies), old(States(enemies)), fs, walked, records, old(LastShots(placedTowers)),
                     old(Flights(projectiles)), volley, dt, now, advance)
      ensures records == CreditAll(old(Records(placedTowers)), old(enemies), fs)
      ensures gold == old(gold) + Bounty(old(enemies), fs) && score == old(score) + 10 * Bounty(old(enemies), fs)
      ensures lives == old(lives) - Count(fs, Escaped)
    {
      ghost var swept := enemies;
      Listed(Snapshot());
      fs := SweepEnemies(dt, advance);
      walked, records := States(swept), Records(placedTowers);
      label shooting:
      volley := ShootTick(dt, now, advance);
      forall i | 0 <= i < |swept| ensures swept[i].Progress() == walked[i].motion {
        assert walked[i].motion == old@shooting(swept[i].Progress());
      }
      forall j | 0 <= j < |placedTowers| ensures placedTowers[j].kills == records[j].kills {
        assert records[j].kills == old@shooting(placedTowers[j].kills);
      }
      assert OpenTick(1);
    }

    /** What the entity updates of one tick amount to for the enemies
        `swept` that were in play, whose states were `start`: `fs` are
        their fates, read off `start`; `walked` their states once each has
        taken its `Step`; `records` the towers' targets and kill counts
        once the killed ones are credited. Now the enemies left are the
        ones in play, in their order; no enemy has moved since its step; the
        towers keep the credited kill counts; each tower, its last shot
        having been at `shots`, has turned on the enemy within its range
        furthest along the path (none being dead after the sweep) and shot
        as `Turned` says, making `volley`; and each projectile has had its
        pass from the flights `before` and the volley, all of them aimed at
        spawned enemies. */
    ghost predicate Played(swept: seq<Enemy>, start: seq<EnemyState>, fs: seq<Fate>, walked: seq<EnemyState>,
                           records: seq<Record>, shots: seq<int>, before: seq<Flight>, volley: seq<Option<Flight>>,
                           dt: real, now: int, advance: Stepper)
      reads `enemies, `placedTowers, `projectiles, `enemyPath, `gameSpeed, `allEnemies
      reads swept, enemies, placedTowers, projectiles, allEnemies
    {
      (forall f :: f in Volley(before, volley) ==> f.target == null || f.target in allEnemies)
      && |start| == |swept| && |fs| == |swept| && (forall i :: 0 <= i < |fs| ==> fs[i] == FateOf(start[i]))
      && walked == Walk(start, enemyPath, dt, gameSpeed, advance)
      && forall k {:trigger OpenTick(k)} :: OpenTick(k) ==>
      enemies == Survivors(swept, fs)
      && (forall i :: 0 <= i < |swept| ==> swept[i].Progress() == walked[i].motion)
      && |records| == |placedTowers| && (forall j :: 0 <= j < |placedTowers| ==> placedTowers[j].kills == records[j].kills)
      && TurnedUpTo(placedTowers, |placedTowers|, now, Furthests(placedTowers, enemies), shots, volley)
      && |Volley(before, volley)| == |projectiles|
      && forall i :: 0 <= i < |projectiles| ==> Flew(projectiles[i], Volley(before, volley)[i], dt, gameSpeed, advance)
    }

    /** The last part of updateGame: wave completion, the loss check and the
        automatic start of the next wave, as `Waves.Finish` says. */
    method FinishTick(ghost swept: seq<Enemy>, ghost start: seq<EnemyState>, ghost fs: seq<Fate>, ghost walked: seq<EnemyState>,
                      ghost records: seq<Record>, ghost shots: seq<int>, ghost before: seq<Flight>,
                      ghost volley: seq<Option<Flight>>, ghost dt: real, ghost now: int, ghost advance: Stepper)
      requires Valid()
      modifies `waveActive, `wave, `gold, `score, `waveTimer, `gameRunning, `isPaused,
               `enemiesInWave, `enemiesSpawned, `enemySpawnTimer
      ensures Valid()
      ensures Controller() == Waves.Finish(old(Controller()), |enemies| == 0)
      ensures old(Played(swept, start, fs, walked, records, shots, before, volley, dt, now, advance)) ==>
                Played(swept, start, fs, walked, records, shots, before, volley, dt, now, advance)
    {
      CloseWave();
      CheckLoss();
      StartDueWave();
    }

    /** updateGame's wave completion: a drained wave completes. */
    method CloseWave()
      requires Valid()
      modifies `waveActive, `wave, `gold, `score, `waveTimer, `gameRunning, `isPaused
      ensures Valid()
      ensures var c := old(Controller());
        Controller() == if Waves.Drained(c, |enemies| == 0) then Waves.CompleteWave(c) else c
    {
      if waveActive && enemiesSpawned >= enemiesInWave && |enemies| == 0 {
        CompleteWave();
      }
    }

    /** updateGame's loss check: with no lives left the game ends. */
    method CheckLoss()
      requires Valid()
      modifies `gameRunning, `isPaused
      ensures Valid()
      ensures var c := old(Controller());
        Controller() == if c.lives <= 0 then Waves.Stop(c) else c
    {
      if lives <= 0 {
        EndGame();
      }
    }

    /** updateGame's automatic start: between waves, once the countdown has
        run out, the next wave starts. */
    method StartDueWave()
      requires Valid()
      modifies `enemiesInWave, `enemiesSpawned, `enemySpawnTimer, `waveActive
      ensures Valid()
      ensures var c := old(Controller());
        Controller() == if !c.waveActive && c.waveTimer <= 0.0 then Waves.StartWave(c) else c
    {
      if !waveActive && waveTimer <= 0.0 {
        SpawnWave();
      }
    }

    /** What a tick's entity updates amount to, with `mid` the enemy list
        they start from: the old list followed by the enemies spawned in the
        tick, which are new and in play, `start` the states of its enemies
        then (the old ones' as before the tick, the new ones' at the first
        waypoint) and `fs` their fates, read off `start`. The controller's
        fields after the entity updates, `settled`, pay the killed enemies'
        rewards in gold, ten times over in score, and lose a life per
        escaped enemy. */
    twostate predicate Accounted(settled: Waves.Controller, new mid: seq<Enemy>, start: seq<EnemyState>, fs: seq<Fate>)
      reads `enemies, `enemyPath, mid
    {
      var n := old(|enemies|);
      old(enemies) <= mid && |mid| == n + (settled.enemiesSpawned - old(enemiesSpawned))
      && |start| == |mid| && |fs| == |mid| && start[..n] == old(States(enemies))
      && (n < |mid| ==> |enemyPath| > 0)
      && (forall i :: n <= i < |mid| ==>
            fresh(mid[i]) && start[i] == EnemyState(Motion.Motion(enemyPath[0], 0, false), [], false, mid[i].speed))
      && settled.gold == old(gold) + Bounty(mid, fs) && settled.score == old(score) + 10 * Bounty(mid, fs)
      && settled.lives == old(lives) - Count(fs, Escaped)
    }

    /** The part of updateGame between the wave controller's transitions:
        the timers and spawn of `Waves.Begin`, then the entity updates, which
        change only lives, gold and score of the controller's fields and
        amount to `Accounted` and `Played`. */
    method PlayTick(dt: real, now: int, choice: nat, advance: Stepper)
      returns (ghost mid: seq<Enemy>, ghost start: seq<EnemyState>, ghost fs: seq<Fate>, ghost walked: seq<EnemyState>,
               ghost records: seq<Record>, ghost volley: seq<Option<Flight>>)
      requires Valid() && choice < |EnemyTypes| && |enemyPath| > 0
      modifies this, allEnemies, placedTowers, projectiles
      ensures Valid()
      ensures Controller() == Waves.Begin(old(Controller()), dt).(lives := lives, gold := gold, score := score)
      ensures Accounted(Controller(), mid, start, fs)
      ensures Played(mid, start, fs, walked, records, old(LastShots(placedTowers)), old(Flights(projectiles)), volley, dt, now, advance)
      ensures records == CreditAll(old(Records(placedTowers)), mid, fs)
    {
      BeginTick(dt, choice);
      mid, start := enemies, States(enemies);
      assert start[..old(|enemies|)] == old(States(enemies));
      assert LastShots(placedTowers) == old(LastShots(placedTowers)) && Flights(projectiles) == old(Flights(projectiles));
      assert Records(placedTowers) == old(Records(placedTowers));
      fs, walked, records, volley := UpdateEntities(dt, now, advance);
    }

    /** updateGame: nothing changes while paused. Otherwise the timers and
        spawn of `Waves.Begin` run, and the enemies, towers and projectiles
        are updated as `Accounted` and `Played` say, leaving the
        controller's fields as `settled`; then the transitions of
        `Waves.Finish` follow. */
    method UpdateGame(dt: real, now: int, choice: nat, advance: Stepper)
      returns (ghost settled: Waves.Controller, ghost mid: seq<Enemy>, ghost start: seq<EnemyState>, ghost fs: seq<Fate>,
               ghost walked: seq<EnemyState>, ghost records: seq<Record>, ghost volley: seq<Option<Flight>>)
      requires Valid() && choice < |EnemyTypes| && |enemyPath| > 0
      modifies this, allEnemies, placedTowers, projectiles
      ensures Valid()
      ensures old(isPaused) ==> unchanged(this) && unchanged(allEnemies) && unchanged(placedTowers) && unchanged(projectiles)
      ensures !old(isPaused) ==>
                settled == Waves.Begin(old(Controller()), dt).(lives := settled.lives, gold := settled.gold, score := settled.score)
                && Controller() == Waves.Finish(settled, |enemies| == 0)
      ensures !old(isPaused) ==> Accounted(settled, mid, start, fs)
      ensures !old(isPaused) ==>
                Played(mid, start, fs, walked, records, old(LastShots(placedTowers)), old(Flights(projectiles)), volley, dt, now, advance)
                && records == CreditAll(old(Records(placedTowers)), mid, fs)
    {
      settled, mid, start, fs, walked, records, volley := Controller(), enemies, [], [], [], [], [];
      ghost var shots, before := LastShots(placedTowers), Flights(projectiles);
      if isPaused {
        return;
      }
      mid, start, fs, walked, records, volley := PlayTick(dt, now, choice, advance);
      settled := Controller();
      FinishTick(mid, start, fs, walked, records, shots, before, volley, dt, now, advance);
    }
  }
}
