/** What one movement step does to the snake's body (`Snake.update`), stated
    on values: the body is a head-first sequence of cells. */
module Movement {
  import opened Grid

  datatype Option<T> = None | Some(value: T)

  /** `c in positions[2:]`: the head and the neck (index 1) are not checked,
      the tail is, even when it is about to be vacated. */
  predicate HitsBody(body: seq<Cell>, c: Cell): (r: bool)
    ensures r <==> exists i :: 2 <= i < |body| && body[i] == c
  {
    2 <= |body| && c in body[2..]
  }

  /** The snake's body invariant: non-empty, no longer than `length`, every
      cell on the grid inside the window, consecutive cells one block apart. */
  predicate WellFormed(body: seq<Cell>, length: int)
  {
    1 <= |body| <= length &&
    (forall i :: 0 <= i < |body| ==> InWindow(body[i]) && Aligned(body[i])) &&
    (forall i :: 0 <= i < |body| - 1 ==> Adjacent(body[i], body[i + 1]))
  }

  /** One movement step: `None` when the move fails (the body stays as it
      was), otherwise the new head in front of the old body, the tail popped
      once when the result is longer than `length`. */
  function NextBody(body: seq<Cell>, d: Direction, length: int): (r: Option<seq<Cell>>)
    requires |body| > 0
    ensures r.None? <==> HitsBody(body, Step(body[0], d)) || !InWindow(Step(body[0], d))
    ensures r.Some? ==> |r.value| > 0 && r.value[0] == Step(body[0], d) && r.value[1..] <= body
    ensures r.Some? && |body| < length ==> r.value == [Step(body[0], d)] + body
    ensures r.Some? && length <= |body| ==> |r.value| == |body|
  {
    var head := Step(body[0], d);
    if HitsBody(body, head) then None
    else if !InWindow(head) then None
    else
      var grown := [head] + body;
      Some(if |grown| > length then grown[..|grown| - 1] else grown)
  }

  /** A successful step keeps the body invariant. */
  lemma NextBodyWellFormed(body: seq<Cell>, d: Direction, length: int)
    requires WellFormed(body, length)
    ensures NextBody(body, d, length).Some? ==> WellFormed(NextBody(body, d, length).value, length)
  {
  }

  /** Raising the target length keeps the body invariant (the eat step). */
  lemma GrowWellFormed(body: seq<Cell>, length: int)
    requires WellFormed(body, length)
    ensures WellFormed(body, length + 1)
  {
  }

  /** The body after a reset satisfies the invariant. */
  lemma StartWellFormed()
    ensures WellFormed([START], 1)
  {
  }
}
