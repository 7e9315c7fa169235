/** The occupancy grid: a rectangle of cells, each empty or holding the id of
    one entity. Only the get/set interface of the grid is modelled; writes to
    cells outside the rectangle are ignored. */
module OccGrid {
  import opened Wrappers
  import opened Geometry
  import opened ActionQueue

  /** `cells` maps each occupied cell to its occupant; an absent key is an empty cell. */
  datatype Grid = Grid(numRows: int, numCols: int, cells: map<Point, EntityId>)

  /** A grid with every cell empty. */
  function EmptyGrid(numRows: int, numCols: int): (g: Grid)
    ensures g.numRows == numRows && g.numCols == numCols
    ensures forall p :: GetCell(g, p) == None
  {
    Grid(numRows, numCols, map[])
  }

  /** within_bounds: column inside [0, numCols), row inside [0, numRows). */
  predicate WithinBounds(g: Grid, p: Point)
  {
    0 <= p.x < g.numCols && 0 <= p.y < g.numRows
  }

  function GetCell(g: Grid, p: Point): Option<EntityId>
  {
    if p in g.cells then Some(g.cells[p]) else None
  }

  /** is_occupied: an in-bounds cell that holds an entity. */
  predicate IsOccupied(g: Grid, p: Point)
  {
    WithinBounds(g, p) && GetCell(g, p).Some?
  }

  /** An out-of-bounds point is never occupied. */
  lemma OccupiedInBounds(g: Grid, p: Point)
    ensures IsOccupied(g, p) ==> WithinBounds(g, p)
    ensures !WithinBounds(g, p) ==> !IsOccupied(g, p)
  {
  }

  /** set_cell: stores `v` at an in-bounds cell and leaves every other cell
      alone; an out-of-bounds write changes nothing. */
  function SetCell(g: Grid, p: Point, v: Option<EntityId>): (r: Grid)
    ensures r.numRows == g.numRows && r.numCols == g.numCols
    ensures WithinBounds(g, p) ==> GetCell(r, p) == v
    ensures !WithinBounds(g, p) ==> r == g
    ensures forall p' :: p' != p ==> GetCell(r, p') == GetCell(g, p')
  {
    if !WithinBounds(g, p) then g
    else match v
      case None => Grid(g.numRows, g.numCols, g.cells - {p})
      case Some(id) => Grid(g.numRows, g.numCols, g.cells[p := id])
  }

  /** A second write to the same cell overwrites the first. */
  lemma SetCellTwice(g: Grid, p: Point, v: Option<EntityId>, u: Option<EntityId>)
    ensures SetCell(SetCell(g, p, v), p, u) == SetCell(g, p, u)
  {
    if WithinBounds(g, p) {
      var r1, r2 := SetCell(SetCell(g, p, v), p, u), SetCell(g, p, u);
      assert r1.cells.Keys == r2.cells.Keys;
      assert forall q :: q in r1.cells ==> r1.cells[q] == r2.cells[q];
    }
  }

  /** get_tile_occupant: the occupant of an in-bounds cell, nothing outside. */
  function GetTileOccupant(g: Grid, p: Point): (r: Option<EntityId>)
    ensures r.Some? <==> IsOccupied(g, p)
    ensures r.Some? ==> r == GetCell(g, p)
  {
    if WithinBounds(g, p) then GetCell(g, p) else None
  }
}
