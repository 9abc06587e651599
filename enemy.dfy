/** The patrolling enemy record. */
module EnemyEntity {
  import opened Types
  import opened Constants
  import opened Level

  /** The part of an enemy one simulation tick changes. */
  datatype EnemyMotion = EnemyMotion(x: real, y: real, vx: real, vy: real, grounded: bool, direction: Facing)

  function DirectionOf(spawn: EnemySpawn): Facing {
    match spawn.direction
    case Some(d) => d
    case None => 1
  }

  function PatrolMinOf(spawn: EnemySpawn): real {
    match spawn.patrolMin
    case Some(m) => m
    case None => spawn.x - 180.0
  }

  function PatrolMaxOf(spawn: EnemySpawn): real {
    match spawn.patrolMax
    case Some(m) => m
    case None => spawn.x + 180.0
  }

  /** Default patrol bounds form a non-empty range around the spawn. */
  lemma DefaultPatrolRange(spawn: EnemySpawn)
    requires spawn.patrolMin.None? && spawn.patrolMax.None?
    ensures PatrolMinOf(spawn) < spawn.x < PatrolMaxOf(spawn)
    ensures PatrolMaxOf(spawn) - PatrolMinOf(spawn) == 360.0
  {
  }

  class Enemy {
    var x: real
    var y: real
    const w: real := ENEMY_WIDTH
    const h: real := ENEMY_HEIGHT
    var vx: real
    var vy: real
    var grounded: bool
    var alive: bool
    var direction: Facing
    var patrolMin: real
    var patrolMax: real

    /** The state the constructor builds from a spawn; the spawn's tier plays
        no part in it. */
    ghost predicate Spawned(spawn: EnemySpawn)
      reads this
    {
      && x == spawn.x && y == spawn.y
      && vx == 0.0 && vy == 0.0
      && !grounded && alive
      && direction == DirectionOf(spawn)
      && patrolMin == PatrolMinOf(spawn)
      && patrolMax == PatrolMaxOf(spawn)
    }

    constructor (spawn: EnemySpawn)
      ensures Spawned(spawn)
    {
      x := spawn.x;
      y := spawn.y;
      vx := 0.0;
      vy := 0.0;
      grounded := false;
      alive := true;
      direction := if spawn.direction.Some? then spawn.direction.value else 1;
      patrolMin := if spawn.patrolMin.Some? then spawn.patrolMin.value else spawn.x - 180.0;
      patrolMax := if spawn.patrolMax.Some? then spawn.patrolMax.value else spawn.x + 180.0;
    }

    function Rect(): (r: Types.Rect)
      reads this`x, this`y
      ensures r == Types.Rect(x, y, ENEMY_WIDTH, ENEMY_HEIGHT)
    {
      Types.Rect(x, y, w, h)
    }

    /** Moves the enemy to the rectangle's position; nothing else changes. */
    method ApplyRect(r: Types.Rect)
      modifies this`x, this`y
      ensures x == r.x && y == r.y
    {
      x := r.x;
      y := r.y;
    }

    function CenterX(): real
      reads this`x
    {
      x + w * 0.5
    }

    function Motion(): EnemyMotion
      reads this`x, this`y, this`vx, this`vy, this`grounded, this`direction
    {
      EnemyMotion(x, y, vx, vy, grounded, direction)
    }
  }

  /** The centre lies strictly inside the enemy's rectangle. */
  lemma EnemyGeometry(e: Enemy)
    ensures e.Rect().x < e.CenterX() < e.Rect().x + e.Rect().w
    ensures e.CenterX() == e.Rect().x + e.Rect().w / 2.0
  {
  }

  /** The tier of a spawn does not affect the enemy built from it. */
  lemma SpawnIgnoresTier(e: Enemy, spawn: EnemySpawn, tier: Option<Tier>)
    ensures e.Spawned(spawn) <==> e.Spawned(spawn.(tier := tier))
  {
  }

  /** Applying the enemy's own rectangle leaves the enemy unchanged. */
  method ApplyOwnRect(e: Enemy)
    modifies e
    ensures unchanged(e)
  {
    e.ApplyRect(e.Rect());
  }
}
