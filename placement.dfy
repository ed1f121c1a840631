/** Food placement (`Food.randomize_position`): a column and a row drawn
    uniformly and inclusively, scaled to pixels. */
module Placement {
  import opened Grid

  /** Largest column and row index `randint` may return: 39 and 29. */
  const MAX_COL: int := (WINDOW_WIDTH - BLOCK_SIZE) / BLOCK_SIZE
  const MAX_ROW: int := (WINDOW_HEIGHT - BLOCK_SIZE) / BLOCK_SIZE

  /** The draws `randint(0, MAX_COL)` and `randint(0, MAX_ROW)` can produce. */
  predicate InRange(col: int, row: int)
  {
    0 <= col <= MAX_COL && 0 <= row <= MAX_ROW
  }

  /** A cell the snake's head can occupy: aligned and inside the window. */
  predicate OnBoard(c: Cell)
  {
    InWindow(c) && Aligned(c)
  }

  /** The food cell for the draws `col` and `row`. */
  function FoodCell(col: int, row: int): (c: Cell)
    requires InRange(col, row)
    ensures OnBoard(c)
    ensures 0 <= c.x <= WINDOW_WIDTH - BLOCK_SIZE && 0 <= c.y <= WINDOW_HEIGHT - BLOCK_SIZE
  {
    Cell(col * BLOCK_SIZE, row * BLOCK_SIZE)
  }

  /** Every on-board cell is the food cell of some pair of draws. */
  lemma FoodCellCovers(c: Cell)
    requires OnBoard(c)
    ensures exists col, row :: InRange(col, row) && FoodCell(col, row) == c
  {
    AlignedInWindowBounds(c);
    var col, row := c.x / BLOCK_SIZE, c.y / BLOCK_SIZE;
    assert InRange(col, row);
    assert FoodCell(col, row) == c;
  }

  /** Distinct draws give distinct cells, so every cell is equally likely. */
  lemma FoodCellInjective(col1: int, row1: int, col2: int, row2: int)
    requires InRange(col1, row1) && InRange(col2, row2)
    requires FoodCell(col1, row1) == FoodCell(col2, row2)
    ensures col1 == col2 && row1 == row2
  {
  }
}
