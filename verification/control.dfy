/** The player's four movement keys and the confusion effect that reverses them. */
module Control {

  /** w moves up, a left, s down, d right. */
  datatype Key = W | A | S | D

  /** Up and down move along y; left and right along x. */
  predicate IsVertical(k: Key) {
    k == W || k == S
  }

  /** Up and left decrease the coordinate they move; down and right increase it. */
  predicate IsBackward(k: Key) {
    k == W || k == A
  }

  /** While confused the controls are reversed, not disabled: the key becomes
      the opposite one on the same axis. Otherwise the key is kept. */
  function SwapKey(key: Key, isConfused: bool): (r: Key)
    ensures !isConfused ==> r == key
    ensures isConfused ==> IsVertical(r) == IsVertical(key) && IsBackward(r) != IsBackward(key)
  {
    if isConfused then
      match key
      case W => S
      case A => D
      case S => W
      case D => A
    else key
  }

  /** Swapping twice under the same confusion gives the key back. */
  lemma SwapKeyInvolution(key: Key, isConfused: bool)
    ensures SwapKey(SwapKey(key, isConfused), isConfused) == key
  {
  }
}
