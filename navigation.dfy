/** The walkability grid the player and the enemies move on, the cells a path
    search is asked about, and the path an enemy follows. The search itself
    (the `pathfinding` library's A*) is an oracle: a function from a start
    cell and an end cell to the cells of the path it finds. */
module Navigation {
  import opened Geometry

  datatype Option<T> = None | Some(value: T)

  /** A grid node: `x` is the column, `y` the row. */
  datatype Cell = Cell(x: int, y: int)

  /** The reason tag stored beside an enemy's path: "roam" or "chase". */
  datatype Tag = Roam | Chase

  /** `Enemy.path`: the list of waypoints and its reason tag. */
  datatype Plan = Plan(cells: seq<Cell>, tag: Tag) {
    /** `path[0].pop(0)`: the first waypoint is consumed. */
    function Popped(): (p: Plan)
      requires |cells| > 0
      ensures p.tag == tag && |p.cells| == |cells| - 1
      ensures forall i :: 0 <= i < |p.cells| ==> p.cells[i] == cells[i + 1]
    {
      Plan(cells[1..], tag)
    }
  }

  /** Clamp an index into `[lo, hi]`. */
  function ClampIndex(v: int, lo: int, hi: int): (r: int)
    requires lo <= hi
    ensures lo <= r <= hi
    ensures lo <= v <= hi ==> r == v
    ensures v < lo ==> r == lo
    ensures v > hi ==> r == hi
  {
    Max(lo, Min(v, hi))
  }

  /** The matrix (0 = blocked), its dimensions and the tile size in pixels. */
  datatype Grid = Grid(matrix: seq<seq<int>>, rows: int, cols: int, tileX: int, tileY: int) {

    /** The dimensions agree with the matrix and the tiles have a size. */
    predicate Valid() {
      0 < rows && 0 < cols && 0 < tileX && 0 < tileY && |matrix| == rows &&
      forall r :: 0 <= r < |matrix| ==> |matrix[r]| == cols
    }

    predicate InGrid(c: Cell) {
      0 <= c.x < cols && 0 <= c.y < rows
    }

    /** `(int(pos.x // tile_x), int(pos.y // tile_y))`, not clamped. */
    function CellAt(pos: Vec): (c: Cell)
      requires Valid()
      ensures c.x as real <= pos.x / tileX as real < c.x as real + 1.0
      ensures c.y as real <= pos.y / tileY as real < c.y as real + 1.0
    {
      Cell(FloorDiv(pos.x, tileX), FloorDiv(pos.y, tileY))
    }

    /** The player's rule for a candidate position: it is rejected when its
        cell lies inside the grid and holds 0; a cell outside never blocks. */
    predicate Blocks(pos: Vec)
      requires Valid()
    {
      var c := CellAt(pos);
      InGrid(c) && matrix[c.y][c.x] == 0
    }

    /** The world point of a waypoint: the top-left corner of its cell. */
    function WaypointX(c: Cell): int { c.x * tileX }
    function WaypointY(c: Cell): int { c.y * tileY }
    function Waypoint(c: Cell): Vec { Vec(WaypointX(c) as real, WaypointY(c) as real) }

    /** The node `Enemy.find_path` asks about, AS WRITTEN: each index is the
        floor quotient clamped only from above, the column by `rows - 1`
        and the row by `cols - 1`. */
    function EndpointAsWritten(pos: Vec): (c: Cell)
      requires Valid()
      ensures c.x <= rows - 1 && c.y <= cols - 1
      ensures CellAt(pos).x <= rows - 1 ==> c.x == CellAt(pos).x
      ensures CellAt(pos).y <= cols - 1 ==> c.y == CellAt(pos).y
      ensures CellAt(pos).x > rows - 1 ==> c.x == rows - 1
      ensures CellAt(pos).y > cols - 1 ==> c.y == cols - 1
    {
      var raw := CellAt(pos);
      Cell(Min(raw.x, rows - 1), Min(raw.y, cols - 1))
    }

    /** The corrected node: the column is clamped into `[0, cols - 1]` and
        the row into `[0, rows - 1]`, so the node always exists. */
    function Endpoint(pos: Vec): (c: Cell)
      requires Valid()
      ensures InGrid(c)
      ensures InGrid(CellAt(pos)) ==> c == CellAt(pos)
      ensures 0 <= CellAt(pos).x < cols ==> c.x == CellAt(pos).x
      ensures 0 <= CellAt(pos).y < rows ==> c.y == CellAt(pos).y
      ensures CellAt(pos).x < 0 ==> c.x == 0
      ensures CellAt(pos).x >= cols ==> c.x == cols - 1
      ensures CellAt(pos).y < 0 ==> c.y == 0
      ensures CellAt(pos).y >= rows ==> c.y == rows - 1
    {
      var raw := CellAt(pos);
      Cell(ClampIndex(raw.x, 0, cols - 1), ClampIndex(raw.y, 0, rows - 1))
    }

    /** `find_path(target_pos, reason)`: the oracle's path between the
        corrected endpoints, paired with the unchanged reason tag. */
    function FindPath(astar: (Cell, Cell) -> seq<Cell>, from: Vec, to: Vec, reason: Tag): (p: Plan)
      requires Valid()
      ensures p.tag == reason
      ensures p.cells == astar(Endpoint(from), Endpoint(to))
    {
      Plan(astar(Endpoint(from), Endpoint(to)), reason)
    }
  }

  /** A non-negative coordinate lies in a non-negative cell. */
  lemma CellOfNonNegative(g: Grid, pos: Vec)
    requires g.Valid() && pos.x >= 0.0 && pos.y >= 0.0
    ensures g.CellAt(pos).x >= 0 && g.CellAt(pos).y >= 0
  {
    assert pos.x / g.tileX as real >= 0.0;
    assert pos.y / g.tileY as real >= 0.0;
  }

  /** On a square grid and for non-negative positions, which is how the
      game uses it, the node asked about as written is the corrected one. */
  lemma AsWrittenAgreesOnSquareGrid(g: Grid, pos: Vec)
    requires g.Valid() && g.rows == g.cols && pos.x >= 0.0 && pos.y >= 0.0
    ensures g.EndpointAsWritten(pos) == g.Endpoint(pos)
  {
    CellOfNonNegative(g, pos);
  }

  /** When the grid has more rows than columns, a position at or right of
      the last column gives, as written, a column index outside the grid
      (the library's node lookup then fails). */
  lemma AsWrittenLeavesGrid(g: Grid, pos: Vec)
    requires g.Valid() && g.rows > g.cols
    requires pos.x >= (g.cols * g.tileX) as real && pos.y >= 0.0
    ensures !g.InGrid(g.EndpointAsWritten(pos))
  {
    var c := g.CellAt(pos);
    var cols, tile := g.cols as real, g.tileX as real;
    assert (g.cols * g.tileX) as real == cols * tile;
    assert pos.x / tile >= (cols * tile) / tile == cols;
    assert c.x >= g.cols;
  }
}
