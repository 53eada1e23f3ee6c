/** The invariant the game object keeps, stated on the values of the fields
    it constrains, and how each kind of update the game makes keeps it. */
module Consistency {
  import opened Util
  import opened Geometry
  import opened Entities
  import opened Board

  /** The fields of the game the invariant constrains. */
  datatype World = World(pool: seq<Projectile>, projectiles: seq<Projectile>, spawned: set<Enemy>,
                         enemies: seq<Enemy>, towers: seq<Tower>,
                         grid: seq<seq<Cell>>, path: seq<Point>, rows: nat, cols: nat)

  /** The object lists are well formed, and the grid is shaped and agrees
      with the towers placed on it. */
  ghost predicate GameOk(w: World)
    reads w.projectiles`active, w.projectiles`target, w.projectiles`damage, w.enemies`health,
          w.towers`damage, w.towers`range, w.towers`fireRate
  {
    Shaped(w) && ListsSealed(w) && BoardSealed(w.grid, w.path, w.towers, w.rows, w.cols)
  }

  /** `ListsOk`, drawn on by a proof only once it mentions `Open`. */
  ghost predicate ListsSealed(w: World)
    reads w.projectiles`active, w.projectiles`target, w.projectiles`damage, w.enemies`health,
          w.towers`damage, w.towers`range, w.towers`fireRate
  {
    forall k {:trigger Open(k)} :: Open(k) ==> ListsOk(w)
  }

  /** Always true, like `Open`, for the board part of the invariant. */
  predicate OpenBoard(k: int)
  {
    true
  }

  /** The board part of the invariant, drawn on by a proof only once it
      mentions `OpenBoard`. */
  ghost predicate BoardSealed(grid: seq<seq<Cell>>, path: seq<Point>, towers: seq<Tower>, rows: nat, cols: nat)
  {
    forall k {:trigger OpenBoard(k)} :: OpenBoard(k) ==>
      GridShaped(grid, path, rows, cols) && PlacementOk(grid, towers, rows, cols)
  }

  /** The part of the invariant most proofs need at hand: the grid has
      `rows` rows of `cols` cells, one per waypoint, and no projectile, enemy
      or tower is listed twice. */
  ghost predicate Shaped(w: World)
  {
    |w.grid| == w.rows && |w.path| == w.cols
    && (forall r :: 0 <= r < w.rows ==> |w.grid[r]| == w.cols)
    && Distinct(w.projectiles) && Distinct(w.enemies) && Distinct(w.towers)
  }

  /** Every projectile, enemy and tower listed is well formed: see `PoolOk`,
      `EnemiesOk` and `TowersOk`. */
  ghost predicate ListsOk(w: World)
    reads w.projectiles`active, w.projectiles`target, w.projectiles`damage, w.enemies`health,
          w.towers`damage, w.towers`range, w.towers`fireRate
  {
    PoolOk(w.pool, w.projectiles, w.spawned) && EnemiesOk(w.enemies, w.spawned) && TowersOk(w.towers)
  }

  /** Spawning enemy `e`, not spawned before and within its maximum health,
      keeps the invariant. */
  lemma Spawned(w: World, e: Enemy)
    requires GameOk(w) && e !in w.spawned && e.health <= e.maxHealth as real && e.reward >= 0
    ensures GameOk(w.(spawned := w.spawned + {e}, enemies := w.enemies + [e]))
  {
    assert Open(0);
    DistinctAppend(w.enemies, e);
  }

  /** The invariant holds as long as no projectile, enemy or tower changes. */
  twostate lemma Untouched(w: World)
    requires old(GameOk(w)) && unchanged(w.projectiles, w.enemies, w.towers)
    ensures GameOk(w)
  {
  }

  /** A game with no projectile, enemy or tower, on a well-formed board,
      satisfies the invariant. */
  lemma Opened(w: World)
    requires w.pool == [] && w.projectiles == [] && w.spawned == {} && w.enemies == [] && w.towers == []
    requires GridShaped(w.grid, w.path, w.rows, w.cols) && PlacementOk(w.grid, [], w.rows, w.cols)
    ensures GameOk(w)
  {
  }

  /** The object lists are well formed. */
  lemma Listed(w: World)
    requires GameOk(w)
    ensures ListsOk(w)
  {
    assert Open(0);
  }

  /** Conversely, the shape, the board and well-formed object lists make up
      the invariant. */
  lemma Relisted(w: World)
    requires Shaped(w) && BoardSealed(w.grid, w.path, w.towers, w.rows, w.cols) && ListsOk(w)
    ensures GameOk(w)
  {
  }

  /** Keeping only some of the enemies, each once, keeps the invariant. */
  lemma Thinned(w: World, enemies: seq<Enemy>)
    requires GameOk(w) && Distinct(enemies) && forall e :: e in enemies ==> e in w.enemies
    ensures GameOk(w.(enemies := enemies))
  {
    assert Open(0);
    forall i | 0 <= i < |enemies|
      ensures enemies[i] in w.spawned && enemies[i].health <= enemies[i].maxHealth as real && enemies[i].reward >= 0
    {
      assert enemies[i] in w.enemies;
      var j :| 0 <= j < |w.enemies| && w.enemies[j] == enemies[i];
    }
  }

  /** Building tower `t`, with positive damage, range and fire rate, at the
      position of the free, off-path cell (r, c) keeps the invariant; that
      position is the cell's centre. */
  lemma Built(w: World, r: nat, c: nat, t: Tower)
    requires GameOk(w) && r < w.rows && c < w.cols && !w.grid[r][c].occupied && !w.grid[r][c].onPath
    requires t !in w.towers && t.x == w.grid[r][c].x && t.y == w.grid[r][c].y
    requires t.damage > 0.0 && t.range > 0.0 && t.fireRate > 0.0
    ensures t.x == CellCenter(c) && t.y == CellCenter(r)
    ensures GameOk(w.(towers := w.towers + [t],
                      grid := w.grid[r := w.grid[r][c := w.grid[r][c].(occupied := true, tower := t)]]))
  {
    assert Open(0) && OpenBoard(0);
    PlacingKeepsPlacement(w.grid, w.path, w.towers, w.rows, w.cols, r, c, t);
    DistinctAppend(w.towers, t);
  }

  /** Selling tower `index`: it stands on a cell of the grid, and clearing
      that cell and removing the tower keeps the invariant. */
  lemma Sold(w: World, index: nat)
    requires GameOk(w) && index < |w.towers|
    ensures CellIndexOf(w.towers[index].x, w.towers[index].y, w.rows, w.cols).Some?
    ensures var pos := CellIndexOf(w.towers[index].x, w.towers[index].y, w.rows, w.cols).value;
      GameOk(w.(towers := w.towers[..index] + w.towers[index + 1..],
                grid := w.grid[pos.row := w.grid[pos.row][pos.col := w.grid[pos.row][pos.col].(occupied := false, tower := null)]]))
  {
    assert Open(0) && OpenBoard(0);
    SellingKeepsPlacement(w.grid, w.path, w.towers, w.rows, w.cols, index);
    DistinctRemove(w.towers, index);
  }
}
