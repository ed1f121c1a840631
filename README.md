# Snake game: the game-state simulation

A model of the simulation in `snake_game.py`, a pygame snake game. The snake
lives in an 800 x 600 pixel window cut into 20-pixel blocks. Its body is a
head-first list of cells. Each tick, the loop first applies the arrow keys
pressed since the last tick. A key is ignored when it names the opposite of
the current direction. Then the snake moves one block. The move fails when
the new head leaves the window or lands on a body cell from index 2 on. A
failed move resets the snake and re-places the food. When the head reaches
the food, the target length and the score each go up by one and the food is
re-placed.

Modules:

- `Grid` (grid.dfy): the constants, cells, the four directions, one-block steps.
- `Steering` (steering.dfy): arrow keys and the no-reverse rule.
- `Movement` (movement.dfy): `update` stated on values (`NextBody`) and the body invariant `WellFormed`.
- `Placement` (placement.dfy): where `randomize_position` can put the food.
- `Objects` (objects.dfy): the classes `Snake` and `Food`, with the fields the source mutates in place.
- `Game` (game.dfy): one pass of `main`'s loop, as a function (`NextState`, `Run`) and as methods that mutate the two objects (`HandleKeys`, `Tick`, `Play`).
- `Scenarios` (scenarios.dfy): concrete edge cases of the movement step and the tick.

The invariant kept across every tick (`Game.Invariant`) has three parts about the body:

- the body is non-empty and no longer than `length`;
- every body cell is inside the window and a multiple of 20 in both coordinates;
- consecutive body cells are one block apart in exactly one coordinate.

It also requires that the head is one step from the neck in the current
direction (`Game.HeadLeads`), that `score == length - 1`, and that the food
is on such a cell.

Random choices come in as parameters. `random.choice([UP, DOWN, LEFT, RIGHT])`
becomes a `Direction` argument; every value of that datatype is a valid
choice. The two `random.randint` draws become `col` and `row`, with the
precondition `InRange(col, row)`, that is `0 <= col <= 39` and
`0 <= row <= 29`. The keys of one tick are a `seq<Key>`, all applied before
the move of the same tick.

Four behaviours of the code that the model keeps as written:

- The food is placed with no check against the snake's body (snake_game.py:114-116). It can land on the snake.
- A key changes `direction` at once, and each later key of the same tick is checked against that new direction. So two keys can chain into a reversal (`Steering.ChainedReversal`).
- The collision test is exactly `new in positions[2:]`. The neck is never checked. The tail is checked even when it would be vacated in the same step (`Scenarios.TailCellCounts`).
- Because the neck is not checked, a chained reversal moves the head onto the neck, and the step succeeds unless the neck cell also recurs from index 2 on (`Scenarios.ReversalOntoNeck`). When the stepped body has three or more cells, it then holds one cell twice (`Scenarios.NeckStepRepeats`, `Scenarios.NeckReversalOverlaps`). With two cells at the target length, the repeated cell is the popped tail and no cell repeats (`Scenarios.NeckStepShortBody`). The model therefore claims no distinctness of body cells.

## Model

| member | source | states |
|---|---|---|
| `Grid.Vector` | snake_game.py:129-132 | each direction constant is a unit vector along exactly one axis |
| `Grid.InWindow` | snake_game.py:47-49 | on aligned cells, the bounds test passes exactly on [0,780] x [0,580] |
| `Steering.KeyDirection` | snake_game.py:145-152 | K_UP, K_DOWN, K_LEFT, K_RIGHT select the vectors (0,-1), (0,1), (-1,0), (1,0) |
| `Movement.HitsBody` | snake_game.py:44 | the new head collides exactly when it equals the body cell at some index 2 or higher; indices 0 and 1 are never checked |
| `Grid.Opposite` | snake_game.py:129-132 | the opposite direction's vector is the negation of the direction's vector, and differs from it |
| `Grid.Step` | snake_game.py:40-42 | the new head is one block from the old head in exactly one coordinate, and on the grid when the old one was |
| `Grid.StepOpposite` | snake_game.py:129-132 | a step followed by a step in the opposite direction returns to the start cell |
| `Grid.AlignedInWindowBounds` | snake_game.py:47-49 | an aligned cell inside the window lies in [0,780] x [0,580] |
| `Grid.StartOnGrid` | snake_game.py:31 | the start cell is (400,300), aligned and inside the window |
| `Steering.ApplyKey` | snake_game.py:145-152 | a key never yields the opposite of the current direction; it takes the key's direction exactly when that is not the opposite, and otherwise keeps the current one |
| `Steering.ApplyKeys` | snake_game.py:140-152 | after a tick's keys the direction is the old one or the direction of one of the keys |
| `Steering.EachKeyNoReverse` | snake_game.py:145-152 | each key event of a tick is judged against the direction the earlier keys left, and never sets its opposite |
| `Steering.ApplyKeyIdempotent` | snake_game.py:145-152 | pressing the same key twice has the effect of pressing it once |
| `Steering.ChainedReversal` | snake_game.py:145-152 | from RIGHT, the keys UP then LEFT end at LEFT, the opposite of RIGHT |
| `Movement.NextBody` | snake_game.py:39-54 | the step fails exactly when the new head is in positions[2:] or outside the window; on success the new head is in front, the rest is a prefix of the old body, the body grows by one below the target length and keeps its size otherwise |
| `Movement.NextBodyWellFormed` | snake_game.py:42-53 | a successful step keeps the body non-empty, within the length, on the grid, inside the window and adjacent cell to cell |
| `Movement.GrowWellFormed` | snake_game.py:160 | raising the target length by one keeps the body invariant |
| `Movement.StartWellFormed` | snake_game.py:58 | the reset body [(400,300)] satisfies the body invariant for length 1 |
| `Placement.FoodCell` | snake_game.py:114-116 | every pair of draws gives an aligned cell in [0,780] x [0,580] |
| `Placement.FoodCellCovers` | snake_game.py:115-116 | every aligned cell inside the window is the food cell of some pair of draws |
| `Placement.FoodCellInjective` | snake_game.py:115-116 | different draws give different cells |
| `Objects.Snake.constructor` | snake_game.py:29-34 | a new snake has length 1, body [(400,300)], score 0, the chosen direction, and satisfies the body invariant |
| `Objects.Snake.HeadPosition` | snake_game.py:36-37 | the head is a body cell, aligned and inside the window when the body invariant holds |
| `Objects.Snake.Update` | snake_game.py:39-54 | returns true exactly when `NextBody` succeeds; then the body is the stepped body, otherwise it is unchanged; the body invariant is kept |
| `Objects.Snake.Reset` | snake_game.py:56-60 | length 1, body [(400,300)], score 0, the chosen direction, body invariant restored |
| `Objects.Food.constructor` | snake_game.py:109-112 | new food sits at the cell of the given draws |
| `Objects.Food.RandomizePosition` | snake_game.py:114-116 | the food moves to the cell of the given draws, on the grid inside the window |
| `Game.Initial` | snake_game.py:135-136 | the starting state satisfies the loop invariant, with body [(400,300)], length 1 and score 0 |
| `Game.NextState` | snake_game.py:139-162 | after any tick the body is non-empty |
| `Game.TickOutcomes` | snake_game.py:154-162 | a failed step resets the snake and re-places the food; eating raises length and score by exactly one and re-places the food; otherwise length, score and food stay |
| `Game.TickPreservesInvariant` | snake_game.py:154-162 | one tick keeps the loop invariant: the body invariant, the head one step from the neck in the current direction, score == length - 1 and the food on the grid |
| `Game.Run` | snake_game.py:139-162 | after any number of ticks the body is non-empty |
| `Game.RunPreservesInvariant` | snake_game.py:139-162 | every run of ticks from a state satisfying the loop invariant ends in such a state |
| `Game.HandleKeys` | snake_game.py:144-152 | the key loop leaves the direction `ApplyKeys` gives |
| `Game.Tick` | snake_game.py:139-162 | one pass of the loop changes the snake and the food exactly as `NextState` says |
| `Game.NewGame` | snake_game.py:135-136 | the created objects are in the initial state of the loop invariant |
| `Game.Play` | snake_game.py:139-162 | a sequence of ticks changes the objects exactly as `Run` says, and keeps the loop invariant |
| `Scenarios.LeftEdgeFails` | snake_game.py:47-49 | a head at x = 0 moving LEFT fails |
| `Scenarios.RightEdgeFails` | snake_game.py:47-49 | a head at x = 780 moving RIGHT fails |
| `Scenarios.TailCellCounts` | snake_game.py:44-45 | a length-4 snake turning into its own tail cell fails, though that tail would be popped |
| `Scenarios.NeckStepRepeats` | snake_game.py:44-53 | a step onto the neck inside the window succeeds exactly when the neck cell does not recur from index 2 on, and a stepped body of three or more cells then has its head equal to its third cell |
| `Scenarios.ReversalOntoNeck` | snake_game.py:139-162 | in any state satisfying the loop invariant, keys that reverse the direction put the new head on the neck, and the step succeeds exactly when the neck cell does not recur from index 2 on |
| `Scenarios.NeckStepShortBody` | snake_game.py:51-53 | a two-cell body at its target length stepping onto its neck pops the repeated tail and holds no cell twice |
| `Scenarios.NeckReversalOverlaps` | snake_game.py:44-45 | a straight length-3 snake reversing onto its neck succeeds and then holds a cell twice |
| `Scenarios.FirstBite` | snake_game.py:154-162 | from the start, food one block ahead gives score 1 and length 2 after one tick, with the body still one cell long |

## Left out

- Rendering: `Snake.render`, `Food.render`, `draw_grid`, colours, the font and score text, `pygame.display.update`. These are drawing calls with no effect on the game state.
- Window, clock and `clock.tick(GAME_SPEED)` pacing. These are timing and I/O.
- Event polling and the quit event. The loop gets a finite sequence of ticks, each with its arrow keys. Other keys and event types have no effect in the source, so they are not represented.
- `while True`: modelled as a loop over a finite sequence of ticks (`Game.Play`), since the game only ends by the quit event.
- The `random` module. The chosen direction and the food draws are parameters.
- A guarantee that the food never lands on the snake. The source draws without any occupancy check, so no such property holds.
- A "no reversal across a whole tick" guarantee. It does not hold: chained keys can reverse (`Steering.ChainedReversal`).
