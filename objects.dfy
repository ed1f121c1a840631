/** The two game objects the main loop owns and mutates: the snake and the food. */
module Objects {
  import opened Grid
  import opened Movement
  import opened Placement

  class Snake {
    var length: nat
    var positions: seq<Cell>
    var direction: Direction
    var score: nat

    ghost predicate Valid()
      reads this
    {
      WellFormed(positions, length)
    }

    /** `Snake()`; the randomly chosen direction is the parameter. */
    constructor (initialDirection: Direction)
      ensures length == 1 && positions == [START] && direction == initialDirection && score == 0
      ensures Valid()
    {
      length := 1;
      positions := [START];
      direction := initialDirection;
      score := 0;
    }

    /** `get_head_position`: the first body cell. */
    function HeadPosition(): (c: Cell)
      reads this
      requires |positions| > 0
      ensures c in positions
      ensures Valid() ==> InWindow(c) && Aligned(c)
    {
      positions[0]
    }

    /** `update`: moves the head one block; on failure nothing changes. */
    method Update() returns (ok: bool)
      requires |positions| > 0
      modifies this`positions
      ensures ok == NextBody(old(positions), direction, length).Some?
      ensures positions == if ok then NextBody(old(positions), direction, length).value else old(positions)
      ensures old(Valid()) ==> Valid()
    {
      ghost var before := positions;
      var cur := HeadPosition();
      var next := Step(cur, direction);
      if HitsBody(positions, next) {
        return false;
      }
      if !InWindow(next) {
        return false;
      }
      positions := [next] + positions;
      if |positions| > length {
        positions := positions[..|positions| - 1];
      }
      if WellFormed(before, length) {
        NextBodyWellFormed(before, direction, length);
      }
      return true;
    }

    /** `reset`; the randomly chosen direction is the parameter. */
    method Reset(newDirection: Direction)
      modifies this
      ensures length == 1 && positions == [START] && direction == newDirection && score == 0
      ensures Valid()
    {
      length := 1;
      positions := [START];
      direction := newDirection;
      score := 0;
    }
  }

  class Food {
    var position: Cell

    ghost predicate Valid()
      reads this
    {
      OnBoard(position)
    }

    /** `Food()`: starts at (0, 0) and is placed at once; the draws are parameters. */
    constructor (col: int, row: int)
      requires InRange(col, row)
      ensures position == FoodCell(col, row)
      ensures Valid()
    {
      position := Cell(0, 0);
      new;
      RandomizePosition(col, row);
    }

    /** `randomize_position`: no check against the snake's body. */
    method RandomizePosition(col: int, row: int)
      requires InRange(col, row)
      modifies this`position
      ensures position == FoodCell(col, row)
      ensures Valid()
    {
      position := Cell(col * BLOCK_SIZE, row * BLOCK_SIZE);
    }
  }
}
