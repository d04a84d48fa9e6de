/** Geometry shared by the snake, the collectible and the round logic: a square
    board of `CellCount` x `CellCount` cells addressed by integer coordinates. */
module Grid {

  /** Cells per side of the board. */
  const CellCount: int := 25

  /** A board cell, or a step between cells when used as a direction.
      The source stores these as float pairs that only ever hold small integers. */
  datatype Cell = Cell(x: int, y: int)

  /** Component-wise sum, the cell one `step` away from `c`. */
  function Add(c: Cell, step: Cell): Cell
  {
    Cell(c.x + step.x, c.y + step.y)
  }

  const Up: Cell := Cell(0, -1)
  const Down: Cell := Cell(0, 1)
  const Right: Cell := Cell(1, 0)
  const Left: Cell := Cell(-1, 0)

  /** The four unit axis vectors a heading can take. */
  predicate IsHeading(d: Cell)
  {
    d == Up || d == Down || d == Right || d == Left
  }

  /** The opposite direction. */
  function Reverse(d: Cell): Cell
  {
    Cell(-d.x, -d.y)
  }

  /** Inside the playing field `[0, CellCount)` on both axes. */
  predicate InGrid(c: Cell)
  {
    0 <= c.x < CellCount && 0 <= c.y < CellCount
  }

  /** Inside the square `[1, CellCount - 2]` on both axes, where collectibles are placed. */
  predicate InInner(c: Cell)
  {
    1 <= c.x <= CellCount - 2 && 1 <= c.y <= CellCount - 2
  }

  /** The two vertical lines just outside the field that the edge check compares against. */
  predicate OnEdgeX(c: Cell)
  {
    c.x == CellCount || c.x == -1
  }

  /** The two horizontal lines just outside the field that the edge check compares against. */
  predicate OnEdgeY(c: Cell)
  {
    c.y == CellCount || c.y == -1
  }
}
