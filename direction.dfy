/** The facing of a game object, and picking one of two values by it. */
module Directions {
  datatype Direction = Left | Right

  /** The other direction: what `dir == LEFT ? RIGHT : LEFT` computes. */
  function Opposite(d: Direction): (r: Direction)
    ensures r != d
  {
    if d == Left then Right else Left
  }

  /** `dir == LEFT ? onLeft : onRight`. */
  function Sided<T>(d: Direction, onLeft: T, onRight: T): T {
    if d == Left then onLeft else onRight
  }
}
