/** The playing field: window constants, pixel cells and the four movement
    directions of the snake game. Coordinates are pixels; a cell is the
    top-left corner of a BLOCK_SIZE square. */
module Grid {

  const WINDOW_WIDTH: int := 800
  const WINDOW_HEIGHT: int := 600
  const BLOCK_SIZE: int := 20

  /** A position in pixels, as the source's `(x, y)` tuples. */
  datatype Cell = Cell(x: int, y: int)

  /** The four direction constants UP, DOWN, LEFT, RIGHT. */
  datatype Direction = Up | Down | Left | Right

  /** The unit vector each direction constant stands for (screen y grows downward). */
  function Vector(d: Direction): (v: (int, int))
    ensures (v.0 == 0) != (v.1 == 0)
    ensures -1 <= v.0 <= 1 && -1 <= v.1 <= 1
  {
    match d
    case Up => (0, -1)
    case Down => (0, 1)
    case Left => (-1, 0)
    case Right => (1, 0)
  }

  /** The direction whose vector is the negation of `d`'s. */
  function Opposite(d: Direction): (r: Direction)
    ensures Vector(r).0 == -Vector(d).0 && Vector(r).1 == -Vector(d).1
    ensures r != d
  {
    match d
    case Up => Down
    case Down => Up
    case Left => Right
    case Right => Left
  }

  /** The centre of the window, where the snake starts (integer division as `//`). */
  const START: Cell := Cell(WINDOW_WIDTH / 2, WINDOW_HEIGHT / 2)

  /** The cells the bounds test of `update` lets through. */
  predicate InWindow(c: Cell): (r: bool)
    ensures Aligned(c) ==>
      (r <==> 0 <= c.x <= WINDOW_WIDTH - BLOCK_SIZE && 0 <= c.y <= WINDOW_HEIGHT - BLOCK_SIZE)
  {
    !(c.x < 0 || c.x >= WINDOW_WIDTH || c.y < 0 || c.y >= WINDOW_HEIGHT)
  }

  predicate Aligned(c: Cell)
  {
    c.x % BLOCK_SIZE == 0 && c.y % BLOCK_SIZE == 0
  }

  /** Two cells that differ by exactly one block in exactly one coordinate. */
  predicate Adjacent(a: Cell, b: Cell)
  {
    (a.x == b.x && (a.y - b.y == BLOCK_SIZE || b.y - a.y == BLOCK_SIZE)) ||
    (a.y == b.y && (a.x - b.x == BLOCK_SIZE || b.x - a.x == BLOCK_SIZE))
  }

  /** The cell one block away from `c` in direction `d`: `c + d * BLOCK_SIZE`. */
  function Step(c: Cell, d: Direction): (r: Cell)
    ensures Adjacent(c, r)
    ensures Aligned(c) ==> Aligned(r)
  {
    var (dx, dy) := Vector(d);
    Cell(c.x + dx * BLOCK_SIZE, c.y + dy * BLOCK_SIZE)
  }

  /** Stepping back in the opposite direction undoes a step. */
  lemma StepOpposite(c: Cell, d: Direction)
    ensures Step(Step(c, d), Opposite(d)) == c
  {
  }

  /** An aligned cell inside the window lies in [0, 780] x [0, 580]. */
  lemma AlignedInWindowBounds(c: Cell)
    requires InWindow(c) && Aligned(c)
    ensures c.x <= WINDOW_WIDTH - BLOCK_SIZE && c.y <= WINDOW_HEIGHT - BLOCK_SIZE
  {
  }

  /** The start cell is on the grid and inside the window. */
  lemma StartOnGrid()
    ensures InWindow(START) && Aligned(START)
    ensures START == Cell(400, 300)
  {
  }
}
