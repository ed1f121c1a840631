/** Key handling of the main loop: each arrow key turns the snake unless it
    names the exact opposite of the direction current at that key. */
module Steering {
  import opened Grid

  /** The four arrow keys the loop reacts to (K_UP, K_DOWN, K_LEFT, K_RIGHT). */
  datatype Key = KUp | KDown | KLeft | KRight

  /** The direction constant each arrow key selects. */
  function KeyDirection(k: Key): (d: Direction)
    ensures k == KUp ==> Vector(d) == (0, -1)
    ensures k == KDown ==> Vector(d) == (0, 1)
    ensures k == KLeft ==> Vector(d) == (-1, 0)
    ensures k == KRight ==> Vector(d) == (1, 0)
  {
    match k
    case KUp => Up
    case KDown => Down
    case KLeft => Left
    case KRight => Right
  }

  /** The direction after one key event, current direction `d`. */
  function ApplyKey(d: Direction, k: Key): (r: Direction)
    ensures r != Opposite(d)
    ensures r == KeyDirection(k) <==> KeyDirection(k) != Opposite(d)
    ensures r != KeyDirection(k) ==> r == d
  {
    match k
    case KUp => if d != Down then Up else d
    case KDown => if d != Up then Down else d
    case KLeft => if d != Right then Left else d
    case KRight => if d != Left then Right else d
  }

  /** The direction after the keys of one tick, handled in order, each one
      checked against the direction the previous keys left. */
  function ApplyKeys(d: Direction, keys: seq<Key>): (r: Direction)
    ensures r == d || exists i :: 0 <= i < |keys| && r == KeyDirection(keys[i])
  {
    if keys == [] then d
    else
      var front := keys[..|keys| - 1];
      var r := ApplyKey(ApplyKeys(d, front), keys[|keys| - 1]);
      assert forall i :: 0 <= i < |front| ==> front[i] == keys[i];
      r
  }

  /** Each single key event avoids the opposite of the direction current at it. */
  lemma {:induction false} EachKeyNoReverse(d: Direction, keys: seq<Key>, i: nat)
    requires i < |keys|
    ensures ApplyKeys(d, keys[..i + 1]) != Opposite(ApplyKeys(d, keys[..i]))
    ensures ApplyKeys(d, keys[..i + 1]) == ApplyKey(ApplyKeys(d, keys[..i]), keys[i])
  {
    assert keys[..i + 1][..i] == keys[..i];
  }

  /** Pressing the same key twice in a tick has the effect of pressing it once. */
  lemma ApplyKeyIdempotent(d: Direction, k: Key)
    ensures ApplyKey(ApplyKey(d, k), k) == ApplyKey(d, k)
  {
  }

  /** Two keys in one tick can chain into a full reversal: RIGHT, then UP, then LEFT. */
  lemma ChainedReversal()
    ensures ApplyKeys(Right, [KUp, KLeft]) == Opposite(Right)
  {
  }
}
