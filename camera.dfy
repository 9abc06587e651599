/** The camera: clamps a follow target into the world's bounds. */
module CameraView {
  import opened Physics

  /** One axis of `follow`: centre the viewport on the target, kept within
      [0, max(0, world - viewport)]. */
  function FollowAxis(target: real, world: real, viewport: real): (r: real)
    ensures 0.0 <= r <= Max(0.0, world - viewport)
    ensures 0.0 <= target - viewport * 0.5 <= Max(0.0, world - viewport) ==> r == target - viewport * 0.5
    ensures target - viewport * 0.5 < 0.0 ==> r == 0.0
    ensures target - viewport * 0.5 > Max(0.0, world - viewport) ==> r == Max(0.0, world - viewport)
    ensures world <= viewport ==> r == 0.0
  {
    Clamp(target - viewport * 0.5, 0.0, Max(0.0, world - viewport))
  }

  class Camera {
    var x: real
    var y: real
    const viewportWidth: real
    const viewportHeight: real

    constructor (viewportWidth: real, viewportHeight: real)
      ensures this.viewportWidth == viewportWidth && this.viewportHeight == viewportHeight
      ensures x == 0.0 && y == 0.0
    {
      this.viewportWidth := viewportWidth;
      this.viewportHeight := viewportHeight;
      x := 0.0;
      y := 0.0;
    }

    /** The new position depends only on the arguments, not on the old one. */
    method Follow(targetX: real, targetY: real, worldWidth: real, worldHeight: real)
      modifies this`x, this`y
      ensures x == FollowAxis(targetX, worldWidth, viewportWidth)
      ensures y == FollowAxis(targetY, worldHeight, viewportHeight)
    {
      var maxX := Max(0.0, worldWidth - viewportWidth);
      var maxY := Max(0.0, worldHeight - viewportHeight);
      x := Clamp(targetX - viewportWidth * 0.5, 0.0, maxX);
      y := Clamp(targetY - viewportHeight * 0.5, 0.0, maxY);
    }
  }

  /** Following the same target twice gives the same position as once:
      `x1`, `y1` is where the first follow leaves the camera, and the second
      leaves it there. */
  method FollowIsIdempotent(c: Camera, targetX: real, targetY: real, worldWidth: real, worldHeight: real)
    returns (x1: real, y1: real)
    modifies c`x, c`y
    ensures x1 == FollowAxis(targetX, worldWidth, c.viewportWidth)
    ensures y1 == FollowAxis(targetY, worldHeight, c.viewportHeight)
    ensures c.x == x1 && c.y == y1
  {
    c.Follow(targetX, targetY, worldWidth, worldHeight);
    x1, y1 := c.x, c.y;
    c.Follow(targetX, targetY, worldWidth, worldHeight);
  }
}
