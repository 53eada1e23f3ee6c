/** Positions, distance tests, the placement grid and the enemy path. */
module Geometry {
  import opened Util
  import opened Catalog

  datatype Point = Point(x: real, y: real)

  /** The floating-point motion step of the source: from `from`, move towards
      `toward` by the given distance along the unit vector between them. The
      model takes it as a parameter; only the decisions it feeds are modelled. */
  type Stepper = (Point, Point, real) -> Point

  /** Squared Euclidean distance. */
  function DistSq(a: Point, b: Point): real
  {
    (a.x - b.x) * (a.x - b.x) + (a.y - b.y) * (a.y - b.y)
  }

  /** `Math.sqrt(d2) <= r` for a non-negative radius `r`. */
  predicate Within(a: Point, b: Point, r: real)
  {
    DistSq(a, b) <= r * r
  }

  /** `Math.sqrt(d2) < r` for a non-negative radius `r`. */
  predicate Closer(a: Point, b: Point, r: real)
  {
    DistSq(a, b) < r * r
  }

  /** Coordinate of the centre of grid row or column `index`. */
  function CellCenter(index: int): real
  {
    (index * GridSize + GridSize / 2) as real
  }

  datatype CellIndex = CellIndex(row: int, col: int)

  /** The grid cell under the point (x, y), if it lies on a grid of
      `rows` by `cols` cells; column floor(x / 40), row floor(y / 40). */
  function CellIndexOf(x: real, y: real, rows: int, cols: int): (r: Option<CellIndex>)
    ensures r.Some? <==> 0.0 <= x < (cols * GridSize) as real && 0.0 <= y < (rows * GridSize) as real
    ensures r.Some? ==> 0 <= r.value.row < rows && 0 <= r.value.col < cols
    ensures r.Some? ==> (r.value.col * GridSize) as real <= x < ((r.value.col + 1) * GridSize) as real
    ensures r.Some? ==> (r.value.row * GridSize) as real <= y < ((r.value.row + 1) * GridSize) as real
  {
    var col := (x / GridSize as real).Floor;
    var row := (y / GridSize as real).Floor;
    if 0 <= row < rows && 0 <= col < cols then Some(CellIndex(row, col)) else None
  }

  /** The centre of a cell lies in that cell: a tower placed at a cell centre
      is found again in the same cell when it is sold. */
  lemma CenterMapsToCell(row: int, col: int, rows: int, cols: int)
    requires 0 <= row < rows && 0 <= col < cols
    ensures CellIndexOf(CellCenter(col), CellCenter(row), rows, cols) == Some(CellIndex(row, col))
  {
    assert CellCenter(col) / GridSize as real == col as real + 0.5;
    assert CellCenter(row) / GridSize as real == row as real + 0.5;
  }

  /** One random decision per column of path generation: keep the row, or
      try moving up (direction -1) or down (direction +1). */
  datatype Turn = Straight | Up | Down

  /** The row of the path in column `col + 1`, given its row in `col`: a bend is
      considered only in columns before the last five, and kept only if the new
      row stays off the top and bottom rows. */
  function BendRow(row: int, col: int, turn: Turn, rows: int, cols: int): int
  {
    if col < cols - 5 && turn != Straight then
      var newRow := if turn == Up then row - 1 else row + 1;
      if newRow >= 1 && newRow < rows - 1 then newRow else row
    else row
  }

  /** The path's row in column `col`: it starts in the middle row. */
  function PathRow(turns: seq<Turn>, rows: int, cols: int, col: nat): int
    requires col <= |turns|
  {
    if col == 0 then rows / 2
    else BendRow(PathRow(turns, rows, cols, col - 1), col - 1, turns[col - 1], rows, cols)
  }

  /** The path waypoint in column `col`: the centre of its cell. */
  function PathPoint(turns: seq<Turn>, rows: int, cols: int, col: nat): Point
    requires col <= |turns|
  {
    Point(CellCenter(col), CellCenter(PathRow(turns, rows, cols, col)))
  }

  /** The path never leaves the grid, and after its first step it keeps off the
      top and bottom rows unless it never bent. */
  lemma {:induction false} PathRowInGrid(turns: seq<Turn>, rows: int, cols: int, col: nat)
    requires col <= |turns| && rows >= 1
    ensures 0 <= PathRow(turns, rows, cols, col) < rows
    ensures PathRow(turns, rows, cols, col) == rows / 2 || 1 <= PathRow(turns, rows, cols, col) < rows - 1
  {
    if col > 0 {
      PathRowInGrid(turns, rows, cols, col - 1);
    }
  }

  /** Consecutive waypoints are one column apart and at most one row apart,
      so they never coincide. */
  lemma WaypointsAdjacent(turns: seq<Turn>, rows: int, cols: int, col: nat)
    requires col < |turns|
    ensures PathPoint(turns, rows, cols, col + 1).x == PathPoint(turns, rows, cols, col).x + GridSize as real
    ensures -1 <= PathRow(turns, rows, cols, col + 1) - PathRow(turns, rows, cols, col) <= 1
    ensures DistSq(PathPoint(turns, rows, cols, col), PathPoint(turns, rows, cols, col + 1)) > 0.0
  {
    var a, b := PathPoint(turns, rows, cols, col), PathPoint(turns, rows, cols, col + 1);
    assert (a.x - b.x) * (a.x - b.x) == 1600.0;
    assert (a.y - b.y) * (a.y - b.y) >= 0.0;
  }

  /** In the last five columns the path runs straight. */
  lemma {:induction false} PathEndsLevel(turns: seq<Turn>, rows: int, cols: int, col: nat)
    requires cols - 5 <= col <= |turns|
    ensures PathRow(turns, rows, cols, col) == PathRow(turns, rows, cols, if cols - 5 >= 0 then cols - 5 else 0)
  {
    if col > 0 && col > cols - 5 {
      PathEndsLevel(turns, rows, cols, col - 1);
    }
  }
}
