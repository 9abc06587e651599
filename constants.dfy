/** Tuning constants of the engine, as the engine defines them. */
module Constants {

  const VIEWPORT_WIDTH: real := 960.0
  const VIEWPORT_HEIGHT: real := 540.0
  const FIXED_DT: real := 1.0 / 60.0

  const PLAYER_WIDTH: real := 34.0
  const PLAYER_HEIGHT: real := 48.0
  const PLAYER_MAX_HP: int := 10
  const PLAYER_GROUND_ACCEL: real := 2400.0
  const PLAYER_AIR_ACCEL: real := 1800.0
  const PLAYER_MAX_SPEED_X: real := 320.0
  const PLAYER_JUMP_SPEED: real := 760.0
  const PLAYER_AIR_JUMPS: int := 1
  const PLAYER_GROUND_FRICTION: real := 0.78
  const PLAYER_AIR_FRICTION: real := 0.95
  const PLAYER_KNOCKBACK_X: real := 260.0
  const PLAYER_KNOCKBACK_Y: real := 350.0
  const PLAYER_INVINCIBLE_SECONDS: real := 1.1
  const PLAYER_STOMP_BOUNCE: real := 430.0
  const PLAYER_MAX_FALL_SPEED: real := 980.0

  const ENEMY_WIDTH: real := 42.0
  const ENEMY_HEIGHT: real := 30.0
  const ENEMY_SPEED: real := 85.0
  const ENEMY_MAX_FALL_SPEED: real := 820.0

  const WORLD_GRAVITY: real := 1800.0

  const SCORE_PER_COIN: int := 10
  const SCORE_PER_STOMP: int := 50
}
