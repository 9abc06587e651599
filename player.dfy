/** The player record: position, velocity, hit points and ability timers. */
module PlayerEntity {
  import opened Types
  import opened Constants

  /** The part of the player one simulation tick moves. */
  datatype PlayerMotion = PlayerMotion(x: real, y: real, vx: real, vy: real, grounded: bool)

  class Player {
    var x: real
    var y: real
    const w: real := PLAYER_WIDTH
    const h: real := PLAYER_HEIGHT
    var facing: Facing
    var vx: real
    var vy: real
    var hp: int
    var grounded: bool
    var invincibleTimer: real
    var airJumpsRemaining: int
    var dashTimer: real
    var dashCooldownTimer: real
    var pulseTimer: real
    var pulseCooldownTimer: real

    /** The state `reset` leaves behind for the given spawn point. */
    ghost predicate AtSpawn(spawn: Vec2)
      reads this
    {
      && x == spawn.x && y == spawn.y
      && facing == 1
      && vx == 0.0 && vy == 0.0
      && hp == PLAYER_MAX_HP
      && !grounded
      && invincibleTimer == 0.0
      && airJumpsRemaining == PLAYER_AIR_JUMPS
      && dashTimer == 0.0 && dashCooldownTimer == 0.0
      && pulseTimer == 0.0 && pulseCooldownTimer == 0.0
    }

    /** The bounds the simulation keeps on the player between ticks. */
    ghost predicate InBounds()
      reads this
    {
      && 0 <= hp <= PLAYER_MAX_HP
      && invincibleTimer >= 0.0
      && -PLAYER_MAX_SPEED_X <= vx <= PLAYER_MAX_SPEED_X
      && vy <= PLAYER_MAX_FALL_SPEED
    }

    constructor (spawn: Vec2)
      ensures AtSpawn(spawn) && InBounds()
    {
      new;
      Reset(spawn);
    }

    method Reset(spawn: Vec2)
      modifies this
      ensures AtSpawn(spawn) && InBounds()
    {
      x := spawn.x;
      y := spawn.y;
      facing := 1;
      vx := 0.0;
      vy := 0.0;
      hp := PLAYER_MAX_HP;
      grounded := false;
      invincibleTimer := 0.0;
      airJumpsRemaining := 1;
      dashTimer := 0.0;
      dashCooldownTimer := 0.0;
      pulseTimer := 0.0;
      pulseCooldownTimer := 0.0;
    }

    function Rect(): (r: Types.Rect)
      reads this`x, this`y
      ensures r == Types.Rect(x, y, PLAYER_WIDTH, PLAYER_HEIGHT)
    {
      Types.Rect(x, y, w, h)
    }

    /** Moves the player to the rectangle's position; nothing else changes. */
    method ApplyRect(r: Types.Rect)
      modifies this`x, this`y
      ensures x == r.x && y == r.y
    {
      x := r.x;
      y := r.y;
    }

    function CenterX(): real
      reads this`x
    {
      x + w * 0.5
    }

    function CenterY(): real
      reads this`y
    {
      y + h * 0.5
    }

    function Bottom(): real
      reads this`y
    {
      y + h
    }

    function Motion(): PlayerMotion
      reads this`x, this`y, this`vx, this`vy, this`grounded
    {
      PlayerMotion(x, y, vx, vy, grounded)
    }
  }

  /** The centre lies strictly inside the player's rectangle and the bottom
      is its lower edge. */
  lemma PlayerGeometry(p: Player)
    ensures p.Rect().x < p.CenterX() < p.Rect().x + p.Rect().w
    ensures p.Rect().y < p.CenterY() < p.Rect().y + p.Rect().h
    ensures p.CenterX() == p.Rect().x + p.Rect().w / 2.0
    ensures p.CenterY() == p.Rect().y + p.Rect().h / 2.0
    ensures p.Bottom() == p.Rect().y + p.Rect().h
  {
  }

  /** Applying the player's own rectangle leaves the player unchanged. */
  method ApplyOwnRect(p: Player)
    modifies p
    ensures unchanged(p)
  {
    p.ApplyRect(p.Rect());
  }
}
