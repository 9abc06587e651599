/** Shared value types of the engine: rectangles, points and the game mode. */
module Types {

  /** Axis-aligned box in world pixels: top-left origin, +x right, +y down. */
  datatype Rect = Rect(x: real, y: real, w: real, h: real)

  datatype Vec2 = Vec2(x: real, y: real)

  datatype Option<T> = None | Some(value: T)

  datatype GameMode = Title | Playing | Paused | GameOver | Clear

  /** A horizontal direction or facing: -1 (left) or 1 (right). */
  type Facing = d: int | d == -1 || d == 1 witness 1

  /** The opposite direction (the engine's `direction *= -1`). */
  function Reverse(d: Facing): (r: Facing)
    ensures r as int == -(d as int)
    ensures r != d
  {
    if d == 1 then -1 else 1
  }
}
