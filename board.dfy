/** The playing board: the grid of cells generateGrid builds, the invariants
    the grid keeps, and how building and selling a tower keep them. */
module Board {
  import opened Util
  import opened Geometry
  import opened Entities

  /** A grid cell as generateGrid creates it. */
  function BlankCell(row: int, col: int): Cell
  {
    Cell(CellCenter(col), CellCenter(row), false, false, null)
  }

  /** The grid has `rows` rows of `cols` cells, each knowing its centre, and
      the path has one waypoint per column. */
  ghost predicate GridShaped(grid: seq<seq<Cell>>, path: seq<Point>, rows: nat, cols: nat)
  {
    |grid| == rows && |path| == cols
    && (forall r :: 0 <= r < rows ==> |grid[r]| == cols)
    && (forall r, c {:trigger grid[r][c]} :: 0 <= r < rows && 0 <= c < cols ==>
          grid[r][c].x == CellCenter(c) && grid[r][c].y == CellCenter(r))
  }

  /** A cell is occupied exactly when a tower stands on it, and then that
      tower is one of `towers`, its position falls in this cell and the cell is
      off the path; every tower stands on the cell its position falls in. */
  ghost predicate PlacementOk(grid: seq<seq<Cell>>, towers: seq<Tower>, rows: nat, cols: nat)
    requires |grid| == rows && forall r :: 0 <= r < rows ==> |grid[r]| == cols
  {
    (forall r, c :: 0 <= r < rows && 0 <= c < cols ==>
       (grid[r][c].occupied <==> grid[r][c].tower != null)
       && (grid[r][c].tower != null ==>
             grid[r][c].tower in towers && !grid[r][c].onPath
             && CellIndexOf(grid[r][c].tower.x, grid[r][c].tower.y, rows, cols) == Some(CellIndex(r, c))))
    && (forall k :: 0 <= k < |towers| ==> OnOwnCell(grid, towers[k], rows, cols))
  }

  ghost predicate OnOwnCell(grid: seq<seq<Cell>>, t: Tower, rows: nat, cols: nat)
    requires |grid| == rows && forall r :: 0 <= r < rows ==> |grid[r]| == cols
  {
    var pos := CellIndexOf(t.x, t.y, rows, cols);
    pos.Some? && grid[pos.value.row][pos.value.col].tower == t
  }

  /** Building tower `t` on the free, off-path cell (r, c) keeps the placement
      invariant. */
  lemma PlacingKeepsPlacement(grid: seq<seq<Cell>>, path: seq<Point>, towers: seq<Tower>,
                              rows: nat, cols: nat, r: nat, c: nat, t: Tower)
    requires GridShaped(grid, path, rows, cols) && PlacementOk(grid, towers, rows, cols)
    requires r < rows && c < cols && !grid[r][c].occupied && !grid[r][c].onPath
    requires t !in towers && t.x == CellCenter(c) && t.y == CellCenter(r)
    ensures var g := grid[r := grid[r][c := grid[r][c].(occupied := true, tower := t)]];
      GridShaped(g, path, rows, cols) && PlacementOk(g, towers + [t], rows, cols)
  {
    var g := grid[r := grid[r][c := grid[r][c].(occupied := true, tower := t)]];
    CenterMapsToCell(r, c, rows, cols);
    forall k | 0 <= k < |towers| + 1
      ensures OnOwnCell(g, (towers + [t])[k], rows, cols)
    {
      if k < |towers| {
        assert OnOwnCell(grid, towers[k], rows, cols);
        var pos := CellIndexOf(towers[k].x, towers[k].y, rows, cols).value;
        assert grid[pos.row][pos.col].occupied;
      }
    }
  }

  /** Removing tower `index` and clearing its cell keeps the placement
      invariant. */
  lemma SellingKeepsPlacement(grid: seq<seq<Cell>>, path: seq<Point>, towers: seq<Tower>,
                              rows: nat, cols: nat, index: nat)
    requires GridShaped(grid, path, rows, cols) && PlacementOk(grid, towers, rows, cols)
    requires Distinct(towers) && index < |towers|
    ensures CellIndexOf(towers[index].x, towers[index].y, rows, cols).Some?
    ensures var pos := CellIndexOf(towers[index].x, towers[index].y, rows, cols).value;
      var g := grid[pos.row := grid[pos.row][pos.col := grid[pos.row][pos.col].(occupied := false, tower := null)]];
      GridShaped(g, path, rows, cols) && PlacementOk(g, towers[..index] + towers[index + 1..], rows, cols)
  {
    var t := towers[index];
    assert OnOwnCell(grid, t, rows, cols);
    var pos := CellIndexOf(t.x, t.y, rows, cols).value;
    var g := grid[pos.row := grid[pos.row][pos.col := grid[pos.row][pos.col].(occupied := false, tower := null)]];
    var rest := towers[..index] + towers[index + 1..];
    DistinctRemove(towers, index);
    forall k | 0 <= k < |rest|
      ensures OnOwnCell(g, rest[k], rows, cols)
    {
      assert rest[k] in towers;
      var i :| 0 <= i < |towers| && towers[i] == rest[k];
      assert OnOwnCell(grid, towers[i], rows, cols);
    }
  }

  /** The board generateGrid and generateEnemyPath produce satisfies both grid
      invariants, with no tower on it. */
  lemma FreshBoard(grid: seq<seq<Cell>>, blank: seq<seq<Cell>>, path: seq<Point>,
                   rows: nat, cols: nat, turns: seq<Turn>)
    requires |turns| == cols && |path| == cols
    requires |blank| == rows && forall r :: 0 <= r < rows ==> |blank[r]| == cols
    requires forall r, c :: 0 <= r < rows && 0 <= c < cols ==> blank[r][c] == BlankCell(r, c)
    requires |grid| == |blank| && forall r :: 0 <= r < |grid| ==> |grid[r]| == |blank[r]|
    requires forall r, c :: 0 <= r < |grid| && 0 <= c < |grid[r]| ==>
               grid[r][c] == blank[r][c].(onPath := blank[r][c].onPath
                                                 || (c < cols && r == PathRow(turns, rows, cols, c)))
    ensures GridShaped(grid, path, rows, cols) && PlacementOk(grid, [], rows, cols)
    ensures forall r, c :: 0 <= r < rows && 0 <= c < cols ==>
              grid[r][c] == BlankCell(r, c).(onPath := r == PathRow(turns, rows, cols, c))
  {
    forall r, c | 0 <= r < rows && 0 <= c < cols
      ensures grid[r][c] == BlankCell(r, c).(onPath := r == PathRow(turns, rows, cols, c))
    {
      assert blank[r][c] == BlankCell(r, c);
    }
    forall r, c | 0 <= r < rows && 0 <= c < cols
      ensures !grid[r][c].occupied && grid[r][c].tower == null
    {
      assert blank[r][c] == BlankCell(r, c);
    }
    forall r, c | 0 <= r < rows && 0 <= c < cols
      ensures grid[r][c].x == CellCenter(c) && grid[r][c].y == CellCenter(r)
    {
      assert blank[r][c] == BlankCell(r, c);
    }
  }
}
