/** Concrete situations that pin down the edge cases of the movement step and
    the tick. */
module Scenarios {
  import opened Grid
  import opened Movement
  import opened Placement
  import opened Steering
  import opened Game

  /** A head on the left edge moving LEFT fails, whatever the rest of the body. */
  lemma LeftEdgeFails(body: seq<Cell>, length: int)
    requires |body| > 0 && body[0].x == 0
    ensures NextBody(body, Left, length).None?
  {
  }

  /** A head on the right edge moving RIGHT fails: x = 800 is outside the window. */
  lemma RightEdgeFails(body: seq<Cell>, length: int)
    requires |body| > 0 && body[0].x == WINDOW_WIDTH - BLOCK_SIZE
    ensures NextBody(body, Right, length).None?
  {
  }

  /** A length-4 snake curled into a square, turning into its tail cell,
      fails even though that tail would be popped in the same step. */
  lemma TailCellCounts()
    ensures WellFormed([Cell(0, 0), Cell(20, 0), Cell(20, 20), Cell(0, 20)], 4)
    ensures NextBody([Cell(0, 0), Cell(20, 0), Cell(20, 20), Cell(0, 20)], Down, 4).None?
  {
  }

  /** A step onto the neck fails only when the neck cell also appears from
      index 2 on; when it succeeds and the stepped body has three or more
      cells, its head and its third cell are the same cell. */
  lemma NeckStepRepeats(body: seq<Cell>, d: Direction, length: int)
    requires |body| >= 2 && Step(body[0], d) == body[1] && InWindow(body[1])
    ensures NextBody(body, d, length).Some? <==> body[1] !in body[2..]
    ensures NextBody(body, d, length).Some? && |NextBody(body, d, length).value| >= 3 ==>
              NextBody(body, d, length).value[0] == NextBody(body, d, length).value[2]
  {
    var r := NextBody(body, d, length);
    if r.Some? && |r.value| >= 3 {
      assert r.value[2] == r.value[1..][1] == body[1];
    }
  }

  /** In any state the loop can reach, keys that reverse the direction send
      the head onto the neck; the step then succeeds exactly when the neck
      cell does not recur from index 2 on. */
  lemma ReversalOntoNeck(s: GameState, t: TickInput)
    requires Invariant(s) && ValidInput(t) && |s.body| >= 2
    requires ApplyKeys(s.direction, t.keys) == Opposite(s.direction)
    ensures Step(s.body[0], ApplyKeys(s.direction, t.keys)) == s.body[1]
    ensures NextBody(s.body, ApplyKeys(s.direction, t.keys), s.length).Some? <==> s.body[1] !in s.body[2..]
  {
    StepOpposite(s.body[1], s.direction);
    NeckStepRepeats(s.body, ApplyKeys(s.direction, t.keys), s.length);
  }

  /** With two cells at the target length, the repeated cell is the popped
      tail, so the stepped body holds no cell twice. */
  lemma NeckStepShortBody()
    ensures NextBody([Cell(40, 0), Cell(20, 0)], Left, 2) == Some([Cell(20, 0), Cell(40, 0)])
  {
    assert ([Cell(20, 0)] + [Cell(40, 0), Cell(20, 0)])[..2] == [Cell(20, 0), Cell(40, 0)];
  }

  /** The neck is not checked: a straight length-3 snake that reverses moves
      its head onto its neck, the step succeeds and the body then holds the
      same cell twice. Keys alone can produce the reversal (ChainedReversal). */
  lemma NeckReversalOverlaps()
    ensures var body := [Cell(40, 0), Cell(20, 0), Cell(0, 0)];
            WellFormed(body, 3) &&
            NextBody(body, Left, 3) == Some([Cell(20, 0), Cell(40, 0), Cell(20, 0)])
  {
    var body := [Cell(40, 0), Cell(20, 0), Cell(0, 0)];
    assert body[2..] == [Cell(0, 0)];
    assert ([Cell(20, 0)] + body)[..3] == [Cell(20, 0), Cell(40, 0), Cell(20, 0)];
  }

  /** From the start, with the food one block to the right and the snake
      moving RIGHT, one tick scores 1 and raises the length to 2; the body
      itself grows only on the next step. */
  lemma FirstBite(col: int, row: int)
    requires InRange(col, row)
    ensures var s := GameState([START], Right, 1, 0, Cell(420, 300));
            var r := NextState(s, TickInput([], Up, col, row));
            r.score == 1 && r.length == 2 && r.body == [Cell(420, 300)] && r.food == FoodCell(col, row)
  {
  }
}
