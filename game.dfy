/** The body of `main`'s loop: keys, one movement step, reset on failure,
    growth on eating. Stated once on values (`NextState`, `Run`) and once as
    the loop that mutates the snake and the food (`Tick`, `Play`). */
module Game {
  import opened Grid
  import opened Steering
  import opened Movement
  import opened Placement
  import opened Objects

  /** Everything one tick reads and writes. */
  datatype GameState = GameState(body: seq<Cell>, direction: Direction, length: nat, score: nat, food: Cell)

  /** What one tick receives from outside: the arrow keys pressed since the
      last tick, in order, and the random draws a reset or a re-placement
      of the food would use. */
  datatype TickInput = TickInput(keys: seq<Key>, resetDirection: Direction, foodCol: int, foodRow: int)

  predicate ValidInput(t: TickInput)
  {
    InRange(t.foodCol, t.foodRow)
  }

  predicate AllValid(ts: seq<TickInput>)
  {
    forall i :: 0 <= i < |ts| ==> ValidInput(ts[i])
  }

  /** The head is one step from the neck in the current direction: the
      direction of the last move is the one the state holds. */
  predicate HeadLeads(s: GameState)
  {
    |s.body| >= 2 ==> s.body[0] == Step(s.body[1], s.direction)
  }

  /** The invariant the loop keeps: the snake's body invariant, the head
      leading the neck, one point per block of growth, and the food on the grid. */
  predicate Invariant(s: GameState)
  {
    WellFormed(s.body, s.length) && HeadLeads(s) && s.score == s.length - 1 && OnBoard(s.food)
  }

  /** The state `Snake()` and `Food()` create. */
  function Initial(d: Direction, col: int, row: int): (s: GameState)
    requires InRange(col, row)
    ensures Invariant(s)
    ensures s.body == [START] && s.length == 1 && s.score == 0
  {
    StartWellFormed();
    GameState([START], d, 1, 0, FoodCell(col, row))
  }

  /** One pass of the loop body. */
  function NextState(s: GameState, t: TickInput): (r: GameState)
    requires |s.body| > 0 && ValidInput(t)
    ensures |r.body| > 0
  {
    var d := ApplyKeys(s.direction, t.keys);
    match NextBody(s.body, d, s.length)
    case None => GameState([START], t.resetDirection, 1, 0, FoodCell(t.foodCol, t.foodRow))
    case Some(b) =>
      if b[0] == s.food then GameState(b, d, s.length + 1, s.score + 1, FoodCell(t.foodCol, t.foodRow))
      else GameState(b, d, s.length, s.score, s.food)
  }

  /** The three outcomes of a tick. A failed step resets the snake and
      re-places the food; eating adds exactly one to length and score and
      re-places the food; otherwise only the body and direction change. */
  lemma TickOutcomes(s: GameState, t: TickInput)
    requires |s.body| > 0 && ValidInput(t)
    ensures var d := ApplyKeys(s.direction, t.keys);
            var r := NextState(s, t);
            match NextBody(s.body, d, s.length)
            case None =>
              r.body == [START] && r.length == 1 && r.score == 0 &&
              r.direction == t.resetDirection && r.food == FoodCell(t.foodCol, t.foodRow)
            case Some(b) =>
              r.body == b && r.direction == d &&
              (b[0] == s.food ==>
                r.length == s.length + 1 && r.score == s.score + 1 && r.food == FoodCell(t.foodCol, t.foodRow)) &&
              (b[0] != s.food ==>
                r.length == s.length && r.score == s.score && r.food == s.food)
  {
  }

  /** One tick keeps the loop invariant. */
  lemma TickPreservesInvariant(s: GameState, t: TickInput)
    requires Invariant(s) && ValidInput(t)
    ensures Invariant(NextState(s, t))
  {
  }

  /** The state after the ticks `ts`, in order. */
  function Run(s: GameState, ts: seq<TickInput>): (r: GameState)
    requires |s.body| > 0 && AllValid(ts)
    ensures |r.body| > 0
  {
    if ts == [] then s
    else
      var front := ts[..|ts| - 1];
      assert AllValid(front) by {
        assert forall i :: 0 <= i < |front| ==> front[i] == ts[i];
      }
      NextState(Run(s, front), ts[|ts| - 1])
  }

  /** Every tick keeps the invariant; in particular `score == length - 1` after any run. */
  lemma {:induction false} RunPreservesInvariant(s: GameState, ts: seq<TickInput>)
    requires Invariant(s) && AllValid(ts)
    ensures Invariant(Run(s, ts))
  {
    if ts != [] {
      var front := ts[..|ts| - 1];
      assert forall i :: 0 <= i < |front| ==> front[i] == ts[i];
      RunPreservesInvariant(s, front);
      TickPreservesInvariant(Run(s, front), ts[|ts| - 1]);
    }
  }

  /** The current value of the two objects. */
  function State(snake: Snake, food: Food): GameState
    reads snake, food
  {
    GameState(snake.positions, snake.direction, snake.length, snake.score, food.position)
  }

  /** The key-handling loop: each arrow key sets the direction unless the
      current direction is its opposite. */
  method HandleKeys(snake: Snake, keys: seq<Key>)
    modifies snake`direction
    ensures snake.direction == ApplyKeys(old(snake.direction), keys)
  {
    ghost var d0 := snake.direction;
    for i := 0 to |keys|
      invariant snake.direction == ApplyKeys(d0, keys[..i])
    {
      var key := keys[i];
      if key == KUp && snake.direction != Down {
        snake.direction := Up;
      } else if key == KDown && snake.direction != Up {
        snake.direction := Down;
      } else if key == KLeft && snake.direction != Right {
        snake.direction := Left;
      } else if key == KRight && snake.direction != Left {
        snake.direction := Right;
      }
      EachKeyNoReverse(d0, keys, i);
    }
    assert keys[..|keys|] == keys;
  }

  /** One pass of `main`'s loop body, rendering and pacing left out. */
  method Tick(snake: Snake, food: Food, t: TickInput)
    requires |snake.positions| > 0 && ValidInput(t)
    modifies snake, food
    ensures State(snake, food) == NextState(old(State(snake, food)), t)
  {
    HandleKeys(snake, t.keys);
    var ok := snake.Update();
    if !ok {
      snake.Reset(t.resetDirection);
      food.RandomizePosition(t.foodCol, t.foodRow);
      return;
    }
    if snake.HeadPosition() == food.position {
      snake.length := snake.length + 1;
      snake.score := snake.score + 1;
      food.RandomizePosition(t.foodCol, t.foodRow);
    }
  }

  /** The objects `main` creates before its loop. */
  method NewGame(initialDirection: Direction, col: int, row: int) returns (snake: Snake, food: Food)
    requires InRange(col, row)
    ensures fresh(snake) && fresh(food)
    ensures State(snake, food) == Initial(initialDirection, col, row)
    ensures snake.Valid() && food.Valid()
  {
    snake := new Snake(initialDirection);
    food := new Food(col, row);
  }

  /** `main`'s loop over a finite sequence of ticks. */
  method Play(snake: Snake, food: Food, ts: seq<TickInput>)
    requires |snake.positions| > 0 && AllValid(ts)
    modifies snake, food
    ensures State(snake, food) == Run(old(State(snake, food)), ts)
    ensures Invariant(old(State(snake, food))) ==> Invariant(State(snake, food))
  {
    ghost var s0 := State(snake, food);
    var i := 0;
    while i < |ts|
      invariant 0 <= i <= |ts|
      invariant State(snake, food) == Run(s0, ts[..i])
    {
      assert ts[..i + 1][..i] == ts[..i];
      Tick(snake, food, ts[i]);
      i := i + 1;
    }
    assert ts[..|ts|] == ts;
    if Invariant(s0) {
      RunPreservesInvariant(s0, ts);
    }
  }
}
