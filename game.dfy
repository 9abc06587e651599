/**
 * The game loop: mode machine, fixed-step simulation of the player, the
 * patrolling enemies, coin pickup, stomps and damage, and the two ways a
 * round ends.
 */
module GameCore {
  import opened Types
  import opened Constants
  import opened Physics
  import opened Level
  import opened PlayerEntity
  import opened EnemyEntity
  import opened CoinEntity
  import opened CameraView
  import opened Input

  // ---------------------------------------------------------------------
  // Counting flags

  function CountTrue(flags: seq<bool>): (n: nat)
    ensures n <= |flags|
  {
    if flags == [] then 0 else (if flags[0] then 1 else 0) + CountTrue(flags[1..])
  }

  /** No flag is set exactly when the count is zero, and every flag is set
      exactly when the count is the length. */
  lemma {:induction false} CountTrueExtremes(flags: seq<bool>)
    ensures CountTrue(flags) == 0 <==> forall i :: 0 <= i < |flags| ==> !flags[i]
    ensures CountTrue(flags) == |flags| <==> forall i :: 0 <= i < |flags| ==> flags[i]
  {
    if flags != [] {
      CountTrueExtremes(flags[1..]);
      assert forall i :: 1 <= i < |flags| ==> flags[i] == flags[1..][i - 1];
    }
  }

  /** Setting one flag changes the count by exactly the change of that flag. */
  lemma {:induction false} CountTrueUpdate(flags: seq<bool>, i: nat, b: bool)
    requires i < |flags|
    ensures CountTrue(flags[i := b]) == CountTrue(flags) - (if flags[i] then 1 else 0) + (if b then 1 else 0)
  {
    if i == 0 {
      assert flags[i := b][1..] == flags[1..];
    } else {
      assert flags[i := b][1..] == flags[1..][i - 1 := b];
      CountTrueUpdate(flags[1..], i - 1, b);
    }
  }

  ghost predicate Distinct<T>(s: seq<T>) {
    forall i, j :: 0 <= i < j < |s| ==> s[i] != s[j]
  }

  function CollectedFlags(coins: seq<Coin>): (flags: seq<bool>)
    reads coins`collected
    ensures |flags| == |coins|
    ensures forall i :: 0 <= i < |coins| ==> flags[i] == coins[i].collected
  {
    if coins == [] then [] else [coins[0].collected] + CollectedFlags(coins[1..])
  }

  /** The collected flags a pickup pass leaves, from the flags `collected0`,
      for a player covering `rect`. */
  function Gathered(collected0: seq<bool>, coins: seq<Coin>, rect: Rect): (flags: seq<bool>)
    requires |collected0| == |coins|
    ensures |flags| == |coins|
    ensures forall i :: 0 <= i < |coins| ==>
      flags[i] == (collected0[i] || CircleIntersectsRect(coins[i].x, coins[i].y, coins[i].r, rect))
  {
    seq(|coins|, i requires 0 <= i < |coins| => collected0[i] || CircleIntersectsRect(coins[i].x, coins[i].y, coins[i].r, rect))
  }

  function AliveFlags(enemies: seq<Enemy>): (flags: seq<bool>)
    reads enemies`alive
    ensures |flags| == |enemies|
    ensures forall i :: 0 <= i < |enemies| ==> flags[i] == enemies[i].alive
  {
    if enemies == [] then [] else [enemies[0].alive] + AliveFlags(enemies[1..])
  }

  /** The number of enemies stomped so far. */
  function Defeated(enemies: seq<Enemy>): nat
    reads enemies`alive
  {
    |enemies| - CountTrue(AliveFlags(enemies))
  }

  /** Clearing one set flag, and touching no other, lowers the count by
      exactly one. */
  lemma CountAfterClear(before: seq<bool>, after: seq<bool>, victim: int)
    requires |after| == |before| && -1 <= victim < |before|
    requires victim >= 0 ==> before[victim]
    requires forall j :: 0 <= j < |before| ==> after[j] == (before[j] && j != victim)
    ensures CountTrue(after) == CountTrue(before) - (if victim >= 0 then 1 else 0)
  {
    if victim >= 0 {
      assert after == before[victim := false];
      CountTrueUpdate(before, victim, false);
    } else {
      assert after == before;
    }
  }

  // ---------------------------------------------------------------------
  // One tick of the player, as a function of the values it reads

  function Abs(v: real): real { if v < 0.0 then -v else v }

  /** -1, 0 or 1 from the two arrow keys; both held cancel out. */
  function MoveIntent(right: bool, left: bool): int {
    (if right then 1 else 0) - (if left then 1 else 0)
  }

  /** Horizontal velocity after steering, before the speed clamp: accelerate
      along the intent, or apply friction and snap to rest below 1 px/s. */
  function SteerVelocity(vx: real, grounded: bool, intent: int, dt: real): real {
    var accel := if grounded then PLAYER_GROUND_ACCEL else PLAYER_AIR_ACCEL;
    var pushed := vx + intent as real * accel * dt;
    if intent != 0 then pushed
    else
      var f := pushed * (if grounded then PLAYER_GROUND_FRICTION else PLAYER_AIR_FRICTION);
      if Abs(f) < 1.0 then 0.0 else f
  }

  /** Horizontal velocity after steering, clamped to the top speed. */
  function RunVelocity(vx: real, grounded: bool, intent: int, dt: real): (r: real)
    ensures -PLAYER_MAX_SPEED_X <= r <= PLAYER_MAX_SPEED_X
  {
    Clamp(SteerVelocity(vx, grounded, intent, dt), -PLAYER_MAX_SPEED_X, PLAYER_MAX_SPEED_X)
  }

  /** Friction never speeds the player up nor reverses the direction. */
  lemma FrictionSlowsDown(vx: real, grounded: bool, dt: real)
    ensures Abs(RunVelocity(vx, grounded, 0, dt)) <= Abs(vx)
    ensures RunVelocity(vx, grounded, 0, dt) * vx >= 0.0
    ensures -1.0 < vx < 1.0 ==> RunVelocity(vx, grounded, 0, dt) == 0.0
  {
  }

  /** Holding a direction never slows the player in that direction. */
  lemma SteeringIsMonotone(vx: real, grounded: bool, dt: real)
    requires dt >= 0.0 && -PLAYER_MAX_SPEED_X <= vx <= PLAYER_MAX_SPEED_X
    ensures RunVelocity(vx, grounded, 1, dt) >= vx
    ensures RunVelocity(vx, grounded, -1, dt) <= vx
  {
  }

  /** Vertical velocity after gravity, capped at a terminal fall speed. */
  function FallVelocity(vy: real, dt: real, cap: real): (r: real)
    ensures r <= cap
    ensures r == cap || r == vy + WORLD_GRAVITY * dt
  {
    Min(vy + WORLD_GRAVITY * dt, cap)
  }

  /** The player's motion after one tick: steer, jump if a press of Space
      arrives while grounded, fall, then move through the solids. */
  function RunStep(m: PlayerMotion, right: bool, left: bool, jumpPressed: bool, dt: real, solids: seq<Rect>): PlayerMotion {
    var vx := RunVelocity(m.vx, m.grounded, MoveIntent(right, left), dt);
    var vy := FallVelocity(if jumpPressed && m.grounded then -PLAYER_JUMP_SPEED else m.vy, dt, PLAYER_MAX_FALL_SPEED);
    var moved := MoveBodySpec(Rect(m.x, m.y, PLAYER_WIDTH, PLAYER_HEIGHT), vx, vy, dt, solids);
    PlayerMotion(moved.rect.x, moved.rect.y, moved.vx, moved.vy, moved.hitBottom)
  }

  /** Whatever the input, a tick keeps the player within the speed limits,
      and it ends grounded exactly when the vertical move landed on a solid. */
  lemma RunStepBounds(m: PlayerMotion, right: bool, left: bool, jumpPressed: bool, dt: real, solids: seq<Rect>)
    ensures var n := RunStep(m, right, left, jumpPressed, dt, solids);
      && -PLAYER_MAX_SPEED_X <= n.vx <= PLAYER_MAX_SPEED_X
      && n.vy <= PLAYER_MAX_FALL_SPEED
      && (n.grounded ==> n.vy == 0.0)
  {
    var vx := RunVelocity(m.vx, m.grounded, MoveIntent(right, left), dt);
    var vy := FallVelocity(if jumpPressed && m.grounded then -PLAYER_JUMP_SPEED else m.vy, dt, PLAYER_MAX_FALL_SPEED);
    MoveBodyContacts(Rect(m.x, m.y, PLAYER_WIDTH, PLAYER_HEIGHT), vx, vy, dt, solids);
  }

  /** A press of Space in the air does nothing: there is no air jump. */
  lemma NoJumpInAir(m: PlayerMotion, right: bool, left: bool, dt: real, solids: seq<Rect>)
    requires !m.grounded
    ensures RunStep(m, right, left, true, dt, solids) == RunStep(m, right, left, false, dt, solids)
  {
  }

  // ---------------------------------------------------------------------
  // One tick of an enemy

  /** Whether a solid lies just past the enemy's leading bottom corner. */
  function EnemyHasGroundAhead(x: real, y: real, direction: Facing, solids: seq<Rect>): (r: bool)
    ensures r <==> (exists i :: 0 <= i < |solids| &&
                      ContainsPoint(solids[i], if direction > 0 then x + ENEMY_WIDTH + 3.0 else x - 3.0, y + ENEMY_HEIGHT + 4.0))
  {
    var probeX := if direction > 0 then x + ENEMY_WIDTH + 3.0 else x - 3.0;
    var probeY := y + ENEMY_HEIGHT + 4.0;
    HasGroundAtIff(probeX, probeY, solids);
    HasGroundAt(probeX, probeY, solids)
  }

  /** A living enemy's motion after one tick: walk at constant speed in its
      direction, fall, move, then pick the next direction. */
  function PatrolStep(m: EnemyMotion, patrolMin: real, patrolMax: real, dt: real, solids: seq<Rect>): EnemyMotion {
    var vx := m.direction as real * ENEMY_SPEED;
    var vy := FallVelocity(m.vy, dt, ENEMY_MAX_FALL_SPEED);
    var moved := MoveBodySpec(Rect(m.x, m.y, ENEMY_WIDTH, ENEMY_HEIGHT), vx, vy, dt, solids);
    var afterWall: Facing := if moved.hitLeft || moved.hitRight then Reverse(m.direction) else m.direction;
    var next: Facing :=
      if moved.rect.x <= patrolMin then 1
      else if moved.rect.x + ENEMY_WIDTH >= patrolMax then -1
      else if moved.hitBottom && !EnemyHasGroundAhead(moved.rect.x, moved.rect.y, afterWall, solids) then Reverse(afterWall)
      else afterWall;
    EnemyMotion(moved.rect.x, moved.rect.y, moved.vx, moved.vy, moved.hitBottom, next)
  }

  /** After a tick an enemy at or past a patrol bound heads back inside; within
      its range it turns round exactly when it either stopped against a wall
      or stands at a ledge, but not both. Its horizontal speed is its walking
      speed unless a wall stopped it. */
  lemma PatrolDirection(m: EnemyMotion, patrolMin: real, patrolMax: real, dt: real, solids: seq<Rect>)
    ensures var n := PatrolStep(m, patrolMin, patrolMax, dt, solids);
      var stopped := n.vx == 0.0;
      var afterWall: Facing := if stopped then Reverse(m.direction) else m.direction;
      && (n.vx == m.direction as real * ENEMY_SPEED || stopped)
      && n.vy <= ENEMY_MAX_FALL_SPEED
      && (n.x <= patrolMin ==> n.direction == 1)
      && (patrolMin < n.x && n.x + ENEMY_WIDTH >= patrolMax ==> n.direction == -1)
      && (patrolMin < n.x && n.x + ENEMY_WIDTH < patrolMax ==>
            (n.direction == Reverse(m.direction) <==>
              stopped != (n.grounded && !EnemyHasGroundAhead(n.x, n.y, afterWall, solids))))
  {
    var vx := m.direction as real * ENEMY_SPEED;
    var vy := FallVelocity(m.vy, dt, ENEMY_MAX_FALL_SPEED);
    MoveBodyContacts(Rect(m.x, m.y, ENEMY_WIDTH, ENEMY_HEIGHT), vx, vy, dt, solids);
  }

  // ---------------------------------------------------------------------
  // The enemy contact pass, on values

  /** How one enemy meets the player in the contact pass. Positions do not
      change during the pass, so all four are fixed before it starts: whether
      the enemy was alive, whether it overlaps the player, whether the
      player's bottom edge was at most 7 px below its top before the move,
      and whether a hit pushes the player to the left. */
  datatype Contact = Contact(alive: bool, touches: bool, fromAbove: bool, pushLeft: bool)

  /** What the contact pass changes besides the enemies' flags: the player's
      hit points, invincibility, velocity and grounded flag, and the index of
      the stomped enemy (-1 for none). */
  datatype PassState = PassState(hp: int, invincibleTimer: real, vx: real, vy: real, grounded: bool, victim: int)

  /** One iteration of the contact loop, for enemy `i`: nothing once the run
      is over or when the enemy is dead or not touching; a stomp when the
      player comes from above and is not rising; otherwise `damagePlayer`,
      which does nothing while the player is invincible. */
  function Meet(s: PassState, c: Contact, i: int): PassState {
    if s.hp == 0 || !c.alive || !c.touches then s
    else if c.fromAbove && s.vy >= 0.0 then s.(vy := -PLAYER_STOMP_BOUNCE, grounded := false, victim := i)
    else if s.invincibleTimer > 0.0 then s
    else s.(hp := if s.hp - 1 > 0 then s.hp - 1 else 0,
            invincibleTimer := PLAYER_INVINCIBLE_SECONDS,
            vx := if c.pushLeft then -PLAYER_KNOCKBACK_X else PLAYER_KNOCKBACK_X,
            vy := -PLAYER_KNOCKBACK_Y,
            grounded := false)
  }

  /** The contact loop over the first `n` enemies. */
  function PassPrefix(cs: seq<Contact>, n: nat, s: PassState): PassState
    requires n <= |cs|
  {
    if n == 0 then s else Meet(PassPrefix(cs, n - 1, s), cs[n - 1], n - 1)
  }

  /** The contact loop over every enemy. */
  function Pass(cs: seq<Contact>, s: PassState): PassState {
    PassPrefix(cs, |cs|, s)
  }

  /** The state a contact pass starts from: no enemy stomped yet and a run
      in progress. */
  predicate PassStart(s: PassState) {
    s.victim == -1 && s.hp > 0
  }

  /** The alive flags a pass over `cs` leaves when it stomps `victim`. */
  function Survivors(cs: seq<Contact>, victim: int): (flags: seq<bool>)
    ensures |flags| == |cs|
    ensures forall j :: 0 <= j < |cs| ==> flags[j] == (cs[j].alive && j != victim)
  {
    seq(|cs|, j requires 0 <= j < |cs| => cs[j].alive && j != victim)
  }

  /** `p` (with no victim recorded) and the alive flags `flags` are what the
      contact pass over `cs` leaves, from `s0`. */
  predicate PassDone(s0: PassState, cs: seq<Contact>, p: PassState, flags: seq<bool>) {
    var r := Pass(cs, s0);
    p == r.(victim := -1) && flags == Survivors(cs, r.victim)
  }

  /** A pass over `cs` from `s0` that ended in `r`, with the alive flags
      `flags` that its stomp leaves, is `PassDone`; its victim, if any, was
      alive. */
  lemma PassSettles(cs: seq<Contact>, s0: PassState, r: PassState, flags: seq<bool>)
    requires PassStart(s0) && r == Pass(cs, s0)
    requires |flags| == |cs| && forall j :: 0 <= j < |cs| ==> flags[j] == (cs[j].alive && j != r.victim)
    ensures PassDone(s0, cs, r.(victim := -1), flags)
    ensures -1 <= r.victim < |cs| && (r.victim >= 0 ==> cs[r.victim].alive)
    ensures s0.hp - 1 <= r.hp <= s0.hp
  {
    PassEffect(cs, |cs|, s0);
    assert flags == Survivors(cs, r.victim);
  }

  /** A pass costs at most one hit point. A hit leaves the fresh
      invincibility window and the knock-back; without a hit the timer and
      the horizontal speed are kept, and the vertical speed and grounded flag
      are the stomp bounce's if an enemy was stomped and are kept otherwise.
      The stomped enemy, if any, was alive, touched, and landed on by a
      player that was not rising. */
  lemma {:induction false} PassEffect(cs: seq<Contact>, n: nat, s0: PassState)
    requires n <= |cs| && PassStart(s0)
    ensures var r := PassPrefix(cs, n, s0);
      && -1 <= r.victim < n
      && s0.hp - 1 <= r.hp <= s0.hp
      && (r.victim >= 0 ==> r.vy < 0.0)
      && (r.victim >= 0 ==> cs[r.victim].alive && cs[r.victim].touches && cs[r.victim].fromAbove && s0.vy >= 0.0)
      && (r.hp < s0.hp ==>
            && s0.invincibleTimer <= 0.0
            && r.invincibleTimer == PLAYER_INVINCIBLE_SECONDS
            && (r.vx == PLAYER_KNOCKBACK_X || r.vx == -PLAYER_KNOCKBACK_X)
            && r.vy == -PLAYER_KNOCKBACK_Y && !r.grounded)
      && (r.hp == s0.hp ==>
            && r.invincibleTimer == s0.invincibleTimer && r.vx == s0.vx
            && if r.victim >= 0 then r.vy == -PLAYER_STOMP_BOUNCE && !r.grounded
               else r.vy == s0.vy && r.grounded == s0.grounded)
  {
    if n > 0 {
      PassEffect(cs, n - 1, s0);
    }
  }

  /** The player loses a hit point exactly when it was not invincible at the
      start and touches an enemy the pass did not stomp. */
  lemma {:induction false} PassHit(cs: seq<Contact>, n: nat, s0: PassState)
    requires n <= |cs| && PassStart(s0)
    ensures var r := PassPrefix(cs, n, s0);
      r.hp < s0.hp <==>
        s0.invincibleTimer <= 0.0 && exists j :: 0 <= j < n && cs[j].alive && cs[j].touches && j != r.victim
  {
    if n > 0 {
      PassHit(cs, n - 1, s0);
      PassEffect(cs, n - 1, s0);
      var r := PassPrefix(cs, n - 1, s0);
      var c := cs[n - 1];
      if r.hp < s0.hp && r.hp != 0 && c.alive && c.touches && !(c.fromAbove && r.vy >= 0.0) {
        assert r.invincibleTimer > 0.0;
      }
      if r.hp > 0 && c.alive && c.touches && !(c.fromAbove && r.vy >= 0.0) && r.invincibleTimer <= 0.0 {
        assert cs[n - 1].alive && cs[n - 1].touches && n - 1 != PassPrefix(cs, n, s0).victim;
      }
    }
  }

  /** A stomped enemy is the first touched enemy the player came down on:
      every living enemy touched before it was met from below. */
  lemma {:induction false} PassVictimFirst(cs: seq<Contact>, n: nat, s0: PassState)
    requires n <= |cs| && PassStart(s0)
    ensures var r := PassPrefix(cs, n, s0);
      && (r.victim < 0 && r.vy >= 0.0 ==> forall j :: 0 <= j < n && cs[j].alive && cs[j].touches ==> !cs[j].fromAbove)
      && (r.victim >= 0 ==> forall j :: 0 <= j < n && j < r.victim && cs[j].alive && cs[j].touches ==> !cs[j].fromAbove)
  {
    if n > 0 {
      PassVictimFirst(cs, n - 1, s0);
      PassEffect(cs, n - 1, s0);
      PassEffect(cs, n, s0);
    }
  }

  /** Before the first living enemy the player touches, the pass changes
      nothing. */
  lemma {:induction false} PassUntouched(cs: seq<Contact>, n: nat, s0: PassState)
    requires n <= |cs|
    requires forall j :: 0 <= j < n ==> !(cs[j].alive && cs[j].touches)
    ensures PassPrefix(cs, n, s0) == s0
  {
    if n > 0 {
      PassUntouched(cs, n - 1, s0);
    }
  }

  /** Once an enemy is stomped it stays the pass's victim. */
  lemma {:induction false} PassVictimStays(cs: seq<Contact>, n: nat, m: nat, s0: PassState)
    requires n <= m <= |cs| && PassStart(s0)
    requires PassPrefix(cs, n, s0).victim >= 0
    ensures PassPrefix(cs, m, s0).victim == PassPrefix(cs, n, s0).victim
  {
    if n < m {
      PassVictimStays(cs, n, m - 1, s0);
      PassEffect(cs, m - 1, s0);
    }
  }

  /** When the first living enemy the player touches is one it comes down on
      while not rising, that enemy is the one stomped. */
  lemma PassFirstTouch(cs: seq<Contact>, k: nat, s0: PassState)
    requires PassStart(s0) && k < |cs|
    requires cs[k].alive && cs[k].touches && cs[k].fromAbove && s0.vy >= 0.0
    requires forall j :: 0 <= j < k ==> !(cs[j].alive && cs[j].touches)
    ensures Pass(cs, s0).victim == k
  {
    PassUntouched(cs, k, s0);
    PassVictimStays(cs, k + 1, |cs|, s0);
  }

  /** After a game over (no hit points left) the loop has stopped: the
      remaining enemies change nothing. */
  lemma {:induction false} PassStops(cs: seq<Contact>, n: nat, m: nat, s0: PassState)
    requires n <= m <= |cs|
    requires PassPrefix(cs, n, s0).hp == 0
    ensures PassPrefix(cs, m, s0) == PassPrefix(cs, n, s0)
  {
    if n < m {
      PassStops(cs, n, m - 1, s0);
    }
  }

  /** What a playing tick is measured against: the state the contact pass
      starts from (hit points, the timer after counting down, the velocity
      and ground flag after moving), the position after moving, the flags
      before the tick, and the bottom edge before moving. */
  datatype TickStart = TickStart(pass: PassState, x: real, y: real, alive: seq<bool>, collected: seq<bool>, previousBottom: real)

  /** What a playing tick leaves behind, as far as its outcome goes: the
      player's position, the coins' flags, the player's side of the contact
      pass, the enemies' flags and the mode. */
  datatype TickView = TickView(x: real, y: real, collected: seq<bool>, pass: PassState, alive: seq<bool>, mode: GameMode)

  /** The end-of-tick verdict: game over with no hit points left or below
      the death plane, otherwise a clear at the goal, otherwise the run goes
      on. */
  function RunVerdict(hp: int, y: real, deathY: real, atGoal: bool): GameMode {
    if hp == 0 || y > deathY then GameOver else if atGoal then Clear else Playing
  }

  // ---------------------------------------------------------------------
  // The game

  class Game {
    var mode: GameMode
    const level: LevelData
    const camera: Camera
    const player: Player
    var enemies: seq<Enemy>
    var coins: seq<Coin>
    var score: int
    var collectedCoins: int
    var elapsedSeconds: real

    /** The invariant every public operation keeps: the player is within its
        bounds and alive while a run is in progress, the entity lists match
        the level's spawn tables, and the counters agree with the flags. */
    ghost predicate Valid()
      reads this, player, enemies, coins
    {
      PlayerOk() && EntitiesOk() && ScoreOk()
    }

    /** The player is within its bounds, and alive while a run is in progress. */
    ghost predicate PlayerOk()
      reads this`mode, player
    {
      && player.InBounds()
      && ((mode == Playing || mode == Paused) ==> player.hp > 0)
    }

    /** One enemy per enemy spawn and one coin per coin spawn, each its own
        object, every coin where its spawn put it. */
    ghost predicate EntitiesOk()
      reads this`enemies, this`coins
    {
      && |enemies| == |level.enemies| && Distinct(enemies)
      && |coins| == |level.coins| && Distinct(coins)
      && (forall i :: 0 <= i < |coins| ==>
            coins[i].x == level.coins[i].x && coins[i].y == level.coins[i].y && coins[i].r == level.coins[i].r)
    }

    /** The counters agree with the flags: one count per collected coin, and
        the score is SCORE_PER_COIN per coin plus SCORE_PER_STOMP per enemy
        stomped. */
    ghost predicate ScoreOk()
      reads this`enemies, this`coins, this`score, this`collectedCoins, enemies`alive, coins`collected
    {
      && collectedCoins == CountTrue(CollectedFlags(coins))
      && score == SCORE_PER_COIN * collectedCoins + SCORE_PER_STOMP * Defeated(enemies)
    }

    /** The state `resetRound` leaves: everything as spawned, counters at zero. */
    ghost predicate RoundStart()
      reads this`enemies, this`coins, this`score, this`collectedCoins, this`elapsedSeconds, player, enemies, coins
    {
      && player.AtSpawn(level.spawn)
      && |enemies| == |level.enemies| && Distinct(enemies)
      && (forall i :: 0 <= i < |enemies| ==> enemies[i].Spawned(level.enemies[i]))
      && |coins| == |level.coins| && Distinct(coins)
      && (forall i :: 0 <= i < |coins| ==>
            && coins[i].x == level.coins[i].x && coins[i].y == level.coins[i].y && coins[i].r == level.coins[i].r
            && !coins[i].collected)
      && score == 0 && collectedCoins == 0 && elapsedSeconds == 0.0
    }

    /** A freshly reset round satisfies the invariant. */
    lemma RoundStartIsValid()
      requires RoundStart()
      ensures EntitiesOk() && ScoreOk()
      ensures player.InBounds() && player.hp > 0
    {
      CountTrueExtremes(CollectedFlags(coins));
      CountTrueExtremes(AliveFlags(enemies));
    }

    /** The camera is centred on the player, clamped to the world. */
    ghost predicate CameraOnPlayer()
      reads camera`x, camera`y, player`x, player`y
    {
      && camera.x == FollowAxis(player.CenterX(), level.width, camera.viewportWidth)
      && camera.y == FollowAxis(player.CenterY(), level.height, camera.viewportHeight)
    }

    /** A new game on `level`: a fresh round, showing the title. */
    constructor (level: LevelData)
      ensures Valid() && RoundStart() && CameraOnPlayer()
      ensures mode == Title && this.level == level
      ensures camera.viewportWidth == VIEWPORT_WIDTH && camera.viewportHeight == VIEWPORT_HEIGHT
    {
      mode := Title;
      this.level := level;
      camera := new Camera(VIEWPORT_WIDTH, VIEWPORT_HEIGHT);
      player := new Player(level.spawn);
      enemies := [];
      coins := [];
      new;
      // The round reset leaves the mode alone, so the mode stays Title.
      ResetRound();
    }

    predicate ShouldShowStartButton()
      reads this`mode
    {
      mode == Title || mode == GameOver || mode == Clear
    }

    /** The start button shows exactly when no run is in progress. */
    lemma StartButtonWhenIdle()
      ensures ShouldShowStartButton() <==> !(mode == Playing || mode == Paused)
    {
    }

    function StartButtonLabel(): (caption: string)
      reads this`mode
      ensures caption == "Start" <==> mode == Title
      ensures caption == "Start" || caption == "Restart"
    {
      if mode == Title then "Start" else "Restart"
    }

    method UpdateCamera()
      modifies camera`x, camera`y
      ensures CameraOnPlayer()
      ensures old(Valid()) ==> Valid()
    {
      camera.Follow(player.CenterX(), player.CenterY(), level.width, level.height);
    }

    /** `resetRound`: player back at the spawn, fresh enemies and coins built
        from the level's tables, counters cleared, camera on the player. */
    method ResetRound()
      modifies this, player, camera`x, camera`y
      ensures Valid() && RoundStart() && CameraOnPlayer()
      ensures mode == old(mode)
    {
      RespawnAll();
      RoundStartIsValid();
      UpdateCamera();
    }

    /** Everything `resetRound` does before it moves the camera. */
    method RespawnAll()
      modifies this`enemies, this`coins, this`score, this`collectedCoins, this`elapsedSeconds, player
      ensures RoundStart()
    {
      player.Reset(level.spawn);
      enemies := SpawnEnemies(level.enemies);
      coins := SpawnCoins(level.coins);
      score := 0;
      collectedCoins := 0;
      elapsedSeconds := 0.0;
    }

    /** A new enemy for every spawn, in order. */
    static method SpawnEnemies(spawns: seq<EnemySpawn>) returns (enemies: seq<Enemy>)
      ensures |enemies| == |spawns| && Distinct(enemies)
      ensures forall i :: 0 <= i < |enemies| ==> fresh(enemies[i]) && enemies[i].Spawned(spawns[i])
    {
      enemies := [];
      for i := 0 to |spawns|
        invariant |enemies| == i && Distinct(enemies)
        invariant forall j :: 0 <= j < i ==> fresh(enemies[j]) && enemies[j].Spawned(spawns[j])
      {
        var enemy := new Enemy(spawns[i]);
        enemies := enemies + [enemy];
      }
    }

    /** A new, uncollected coin for every spawn, in order. */
    static method SpawnCoins(spawns: seq<CoinSpawn>) returns (coins: seq<Coin>)
      ensures |coins| == |spawns| && Distinct(coins)
      ensures forall i :: 0 <= i < |coins| ==>
        && fresh(coins[i]) && !coins[i].collected
        && coins[i].x == spawns[i].x && coins[i].y == spawns[i].y && coins[i].r == spawns[i].r
    {
      coins := [];
      for i := 0 to |spawns|
        invariant |coins| == i && Distinct(coins)
        invariant forall j :: 0 <= j < i ==>
          && fresh(coins[j]) && !coins[j].collected
          && coins[j].x == spawns[j].x && coins[j].y == spawns[j].y && coins[j].r == spawns[j].r
      {
        var coin := new Coin(spawns[i]);
        coins := coins + [coin];
      }
    }

    method StartRun()
      modifies this, player, camera`x, camera`y
      ensures Valid() && RoundStart() && CameraOnPlayer()
      ensures mode == Playing
    {
      ResetRound();
      BeginPlaying();
    }

    /** The last step of `startRun`: a freshly reset round starts playing. */
    method BeginPlaying()
      requires Valid() && RoundStart()
      modifies this`mode
      ensures Valid() && RoundStart() && mode == Playing
    {
      mode := Playing;
    }

    /** Steering part of a playing tick (the arrow keys, friction and the
        speed clamp), on the player's horizontal velocity. */
    static method Steer(vx0: real, grounded: bool, intent: int, dt: real) returns (vx: real)
      ensures vx == RunVelocity(vx0, grounded, intent, dt)
    {
      var accel := if grounded then PLAYER_GROUND_ACCEL else PLAYER_AIR_ACCEL;
      vx := vx0 + intent as real * accel * dt;
      if intent == 0 {
        assert vx == vx0;
        vx := vx * (if grounded then PLAYER_GROUND_FRICTION else PLAYER_AIR_FRICTION);
        if Abs(vx) < 1.0 {
          vx := 0.0;
        }
      }
      assert vx == SteerVelocity(vx0, grounded, intent, dt);
      vx := Clamp(vx, -PLAYER_MAX_SPEED_X, PLAYER_MAX_SPEED_X);
    }

    /** Player part of a playing tick; returns the bottom edge before moving. */
    method UpdatePlayer(dt: real, input: InputState) returns (previousBottom: real)
      requires player.InBounds()
      modifies player`x, player`y, player`vx, player`vy, player`grounded, player`invincibleTimer
      modifies input`justPressed
      ensures player.InBounds()
      ensures previousBottom == old(player.Bottom())
      ensures player.Motion() == RunStep(old(player.Motion()), input.IsDown("ArrowRight"), input.IsDown("ArrowLeft"),
                                         "Space" in old(input.justPressed), dt, level.solids)
      ensures player.invincibleTimer == Max(0.0, old(player.invincibleTimer) - dt)
      ensures input.justPressed == old(input.justPressed) - {"Space"}
    {
      player.invincibleTimer := Max(0.0, player.invincibleTimer - dt);
      var right, left := input.IsDown("ArrowRight"), input.IsDown("ArrowLeft");
      var jumpPressed := input.ConsumePress("Space");
      previousBottom := player.Bottom();
      var moved := RunMove(player.Motion(), right, left, jumpPressed, dt, level.solids);
      player.ApplyRect(moved.rect);
      player.vx := moved.vx;
      player.vy := moved.vy;
      player.grounded := moved.hitBottom;
    }

    /** The velocity updates and the move of a playing tick, on the values
        of the player's motion: steering, the jump (only from the ground),
        gravity with the fall-speed cap, then the mover. */
    static method RunMove(m: PlayerMotion, right: bool, left: bool, jumpPressed: bool, dt: real, solids: seq<Rect>)
      returns (moved: BodyMoveResult)
      ensures PlayerMotion(moved.rect.x, moved.rect.y, moved.vx, moved.vy, moved.hitBottom)
           == RunStep(m, right, left, jumpPressed, dt, solids)
      ensures -PLAYER_MAX_SPEED_X <= moved.vx <= PLAYER_MAX_SPEED_X && moved.vy <= PLAYER_MAX_FALL_SPEED
    {
      var vx := Steer(m.vx, m.grounded, MoveIntent(right, left), dt);
      var vy := m.vy;
      if jumpPressed && m.grounded {
        vy := -PLAYER_JUMP_SPEED;
      }
      vy := Min(vy + WORLD_GRAVITY * dt, PLAYER_MAX_FALL_SPEED);
      moved := MoveBody(Rect(m.x, m.y, PLAYER_WIDTH, PLAYER_HEIGHT), vx, vy, dt, solids);
      RunStepBounds(m, right, left, jumpPressed, dt, solids);
    }

    /** One living enemy's part of a playing tick. */
    method UpdateEnemy(enemy: Enemy, dt: real)
      modifies enemy`x, enemy`y, enemy`vx, enemy`vy, enemy`grounded, enemy`direction
      ensures enemy.Motion() == PatrolStep(old(enemy.Motion()), enemy.patrolMin, enemy.patrolMax, dt, level.solids)
    {
      ghost var start := enemy.Motion();
      enemy.vx := enemy.direction as real * ENEMY_SPEED;
      enemy.vy := Min(enemy.vy + WORLD_GRAVITY * dt, ENEMY_MAX_FALL_SPEED);
      var moved := MoveBody(enemy.Rect(), enemy.vx, enemy.vy, dt, level.solids);
      enemy.ApplyRect(moved.rect);
      enemy.vx := moved.vx;
      enemy.vy := moved.vy;
      enemy.grounded := moved.hitBottom;

      if moved.hitLeft || moved.hitRight {
        enemy.direction := Reverse(enemy.direction);
      }

      if enemy.x <= enemy.patrolMin {
        enemy.direction := 1;
      } else if enemy.x + enemy.w >= enemy.patrolMax {
        enemy.direction := -1;
      } else if enemy.grounded && !EnemyHasGroundAhead(enemy.x, enemy.y, enemy.direction, level.solids) {
        enemy.direction := Reverse(enemy.direction);
      }
    }

    /** Enemy part of a playing tick: every living enemy patrols one step;
        defeated enemies are left exactly as they were. */
    method UpdateEnemies(dt: real)
      requires Distinct(enemies)
      modifies enemies`x, enemies`y, enemies`vx, enemies`vy, enemies`grounded, enemies`direction
      ensures forall i :: 0 <= i < |enemies| ==>
        && enemies[i].alive == old(enemies[i].alive)
        && enemies[i].patrolMin == old(enemies[i].patrolMin)
        && enemies[i].patrolMax == old(enemies[i].patrolMax)
        && enemies[i].Motion() ==
             if old(enemies[i].alive)
             then PatrolStep(old(enemies[i].Motion()), enemies[i].patrolMin, enemies[i].patrolMax, dt, level.solids)
             else old(enemies[i].Motion())
    {
      for i := 0 to |enemies|
        invariant forall j :: 0 <= j < |enemies| ==>
          && enemies[j].alive == old(enemies[j].alive)
          && enemies[j].patrolMin == old(enemies[j].patrolMin)
          && enemies[j].patrolMax == old(enemies[j].patrolMax)
        invariant forall j :: 0 <= j < i ==>
          enemies[j].Motion() ==
            if old(enemies[j].alive)
            then PatrolStep(old(enemies[j].Motion()), enemies[j].patrolMin, enemies[j].patrolMax, dt, level.solids)
            else old(enemies[j].Motion())
        invariant forall j :: i <= j < |enemies| ==> enemies[j].Motion() == old(enemies[j].Motion())
      {
        var enemy := enemies[i];
        if !enemy.alive {
          continue;
        }
        UpdateEnemy(enemy, dt);
      }
    }

    /** Coin part of a playing tick: every uncollected coin touching the
        player's rectangle becomes collected, scoring SCORE_PER_COIN each. */
    method CollectCoins()
      requires Distinct(coins) && ScoreOk()
      modifies coins`collected, this`score, this`collectedCoins
      ensures ScoreOk()
      ensures forall i :: 0 <= i < |coins| ==>
        coins[i].collected == (old(coins[i].collected) || CircleIntersectsRect(coins[i].x, coins[i].y, coins[i].r, player.Rect()))
      ensures score - old(score) == SCORE_PER_COIN * (collectedCoins - old(collectedCoins))
      ensures collectedCoins >= old(collectedCoins)
      ensures CoinsResolved(old(CollectedFlags(coins)))
      ensures PassOf(-1) == old(PassOf(-1)) && AliveFlags(enemies) == old(AliveFlags(enemies))
    {
      var playerRect := player.Rect();
      ghost var before := CollectedFlags(coins);
      ghost var flags := GatherCoins(coins, playerRect, before, Defeated(enemies));
      assert CollectedFlags(coins) == flags;
      CoinsResolvedBy(before);
    }

    /** The loop of `CollectCoins`, over `cs` with the flags `before` it
        starts from: `flags` are the flags it leaves. */
    method GatherCoins(cs: seq<Coin>, playerRect: Rect, ghost before: seq<bool>, ghost defeated: int) returns (ghost flags: seq<bool>)
      requires Distinct(cs) && |before| == |cs|
      requires forall j :: 0 <= j < |cs| ==> before[j] == cs[j].collected
      requires collectedCoins == CountTrue(before)
      requires score == SCORE_PER_COIN * collectedCoins + SCORE_PER_STOMP * defeated
      modifies cs`collected, this`score, this`collectedCoins
      ensures |flags| == |cs|
      ensures forall j :: 0 <= j < |cs| ==> flags[j] == cs[j].collected
      ensures forall j :: 0 <= j < |cs| ==>
        flags[j] == (before[j] || CircleIntersectsRect(cs[j].x, cs[j].y, cs[j].r, playerRect))
      ensures collectedCoins == CountTrue(flags)
      ensures score == SCORE_PER_COIN * collectedCoins + SCORE_PER_STOMP * defeated
      ensures collectedCoins >= old(collectedCoins)
    {
      flags := before;
      for i := 0 to |cs|
        invariant |flags| == |cs|
        invariant forall j :: 0 <= j < |cs| ==> flags[j] == cs[j].collected
        invariant forall j :: 0 <= j < i ==>
          flags[j] == (before[j] || CircleIntersectsRect(cs[j].x, cs[j].y, cs[j].r, playerRect))
        invariant forall j :: i <= j < |cs| ==> flags[j] == before[j]
        invariant collectedCoins == CountTrue(flags)
        invariant score == SCORE_PER_COIN * collectedCoins + SCORE_PER_STOMP * defeated
        invariant collectedCoins >= old(collectedCoins)
      {
        var coin := cs[i];
        if coin.collected {
          continue;
        }
        if !CircleIntersectsRect(coin.x, coin.y, coin.r, playerRect) {
          continue;
        }
        coin.collected := true;
        CountTrueUpdate(flags, i, true);
        flags := flags[i := true];
        score := score + SCORE_PER_COIN;
        collectedCoins := collectedCoins + 1;
      }
    }

    /** `damagePlayer`: ignored while invincible; otherwise one hit point
        lost, a fresh invincibility window, a knock-back away from the enemy,
        and game over at zero hit points. */
    method DamagePlayer(enemy: Enemy)
      requires player.InBounds()
      modifies player`hp, player`invincibleTimer, player`vx, player`vy, player`grounded, this`mode
      ensures player.InBounds()
      ensures old(player.invincibleTimer) > 0.0 ==>
        && player.hp == old(player.hp) && player.invincibleTimer == old(player.invincibleTimer)
        && player.vx == old(player.vx) && player.vy == old(player.vy) && player.grounded == old(player.grounded)
        && mode == old(mode)
      ensures old(player.invincibleTimer) <= 0.0 ==>
        && player.hp == (if old(player.hp) > 0 then old(player.hp) - 1 else 0)
        && player.invincibleTimer == PLAYER_INVINCIBLE_SECONDS
        && player.vx == (if player.CenterX() < enemy.CenterX() then -PLAYER_KNOCKBACK_X else PLAYER_KNOCKBACK_X)
        && player.vy == -PLAYER_KNOCKBACK_Y
        && !player.grounded
        && mode == (if player.hp == 0 then GameOver else old(mode))
    {
      if player.invincibleTimer > 0.0 {
        return;
      }
      player.hp := if player.hp - 1 > 0 then player.hp - 1 else 0;
      player.invincibleTimer := PLAYER_INVINCIBLE_SECONDS;
      var pushDirection := if player.CenterX() < enemy.CenterX() then -1.0 else 1.0;
      player.vx := pushDirection * PLAYER_KNOCKBACK_X;
      player.vy := -PLAYER_KNOCKBACK_Y;
      player.grounded := false;
      if player.hp == 0 {
        mode := GameOver;
      }
    }

    /** A stomp: the enemy is defeated, SCORE_PER_STOMP is added and the
        player bounces up; hit points are not touched. */
    method StompEnemy(enemy: Enemy)
      modifies enemy`alive, this`score, player`vy, player`grounded
      ensures !enemy.alive
      ensures score == old(score) + SCORE_PER_STOMP
      ensures player.vy == -PLAYER_STOMP_BOUNCE && !player.grounded
    {
      enemy.alive := false;
      score := score + SCORE_PER_STOMP;
      player.vy := -PLAYER_STOMP_BOUNCE;
      player.grounded := false;
    }

    /** Enemy `e` overlaps the player. */
    predicate Touches(e: Enemy)
      reads player`x, player`y, e`x, e`y
    {
      RectsOverlap(player.Rect(), e.Rect())
    }

    /** `landedFromAbove`: a touch of `e` is a stomp when the player's bottom
        edge was at most 7 px below the enemy's top before the move
        (`previousBottom`) and its vertical speed `vy` is not upwards. */
    static predicate LandsOn(e: Enemy, previousBottom: real, vy: real)
      reads e`y
    {
      previousBottom <= e.y + 7.0 && vy >= 0.0
    }

    /** One living enemy against the player: no effect without overlap; a
        stomp when the player lands on it; otherwise `damagePlayer`, which a
        running invincibility window turns into a no-op. */
    method ContactEnemy(enemy: Enemy, previousBottom: real) returns (stomped: bool)
      requires enemy.alive && player.InBounds() && player.hp > 0
      modifies enemy`alive, this`mode, this`score
      modifies player`hp, player`invincibleTimer, player`vx, player`vy, player`grounded
      ensures player.InBounds()
      ensures stomped <==> Touches(enemy) && LandsOn(enemy, previousBottom, old(player.vy))
      ensures enemy.alive == !stomped
      ensures score == old(score) + (if stomped then SCORE_PER_STOMP else 0)
      ensures stomped ==>
        && player.vy == -PLAYER_STOMP_BOUNCE && !player.grounded
        && player.hp == old(player.hp) && player.vx == old(player.vx) && player.invincibleTimer == old(player.invincibleTimer)
      ensures !stomped ==> (old(player.vy) < 0.0 ==> player.vy < 0.0) && (player.vy >= 0.0 ==> player.vy == old(player.vy))
      ensures !Touches(enemy) ==>
        && player.hp == old(player.hp) && player.invincibleTimer == old(player.invincibleTimer)
        && player.vx == old(player.vx) && player.vy == old(player.vy) && player.grounded == old(player.grounded)
      ensures Touches(enemy) && !stomped && old(player.invincibleTimer) > 0.0 ==>
        && player.hp == old(player.hp) && player.invincibleTimer == old(player.invincibleTimer)
        && player.vx == old(player.vx) && player.vy == old(player.vy) && player.grounded == old(player.grounded)
      ensures Touches(enemy) && !stomped && old(player.invincibleTimer) <= 0.0 ==>
        && player.hp == old(player.hp) - 1
        && player.invincibleTimer == PLAYER_INVINCIBLE_SECONDS
        && player.vx == (if player.CenterX() < enemy.CenterX() then -PLAYER_KNOCKBACK_X else PLAYER_KNOCKBACK_X)
        && player.vy == -PLAYER_KNOCKBACK_Y && !player.grounded
      ensures old(player.hp) - 1 <= player.hp <= old(player.hp)
      ensures player.hp < old(player.hp) ==> old(player.invincibleTimer) <= 0.0
      ensures player.hp == old(player.hp) ==> player.invincibleTimer == old(player.invincibleTimer)
      ensures player.hp < old(player.hp) ==> player.invincibleTimer > 0.0
      ensures mode == (if player.hp == 0 then GameOver else old(mode))
    {
      if !RectsOverlap(player.Rect(), enemy.Rect()) {
        return false;
      }
      var landedFromAbove := previousBottom <= enemy.y + 7.0 && player.vy >= 0.0;
      if landedFromAbove {
        StompEnemy(enemy);
        return true;
      }
      DamagePlayer(enemy);
      return false;
    }

    /** Contact part of a playing tick: each living enemy overlapping the
        player is either stomped or damages the player, in list order; the
        pass stops at game over. The outcome is `Pass`'s (`PassDone`), with
        the score kept in step with the stomps; `PassDoneHit` and
        `PassDoneStomp` state what that means for the player and the
        enemies. */
    method ResolveEnemyContacts(previousBottom: real)
      requires Distinct(enemies) && ScoreOk() && player.InBounds() && player.hp > 0 && mode == Playing
      modifies this`mode, this`score, enemies`alive
      modifies player`hp, player`invincibleTimer, player`vx, player`vy, player`grounded
      ensures PassDone(old(PassOf(-1)), Contacts(enemies, old(AliveFlags(enemies)), previousBottom), PassOf(-1), AliveFlags(enemies))
      ensures ScoreOk() && player.InBounds()
      ensures mode == (if player.hp == 0 then GameOver else Playing)
      ensures score == old(score) + SCORE_PER_STOMP * (Defeated(enemies) - old(Defeated(enemies)))
      ensures Defeated(enemies) <= old(Defeated(enemies)) + 1
      ensures old(player.hp) - 1 <= player.hp <= old(player.hp)
      ensures forall i :: 0 <= i < |enemies| ==> enemies[i].alive ==> old(enemies[i].alive)
      ensures CollectedFlags(coins) == old(CollectedFlags(coins))
    {
      ghost var s0, alive, collected := PassOf(-1), AliveFlags(enemies), CollectedFlags(coins);
      ghost var cs := Contacts(enemies, alive, previousBottom);
      var es := enemies;
      ghost var victim := ContactPass(es, previousBottom);
      assert Contacts(enemies, alive, previousBottom) == cs && CollectedFlags(coins) == collected;
      ContactsAlive(enemies, alive, previousBottom);
      PassSettles(cs, s0, PassOf(victim), AliveFlags(enemies));
      CountAfterClear(alive, AliveFlags(enemies), victim);
    }

    /** The player after `damagePlayer` took a hit point: a fresh
        invincibility window and a knock-back to one side and upwards. */
    ghost predicate KnockedBack()
      reads player
    {
      && player.invincibleTimer == PLAYER_INVINCIBLE_SECONDS
      && (player.vx == PLAYER_KNOCKBACK_X || player.vx == -PLAYER_KNOCKBACK_X)
      && player.vy == -PLAYER_KNOCKBACK_Y && !player.grounded
    }


    /** The player's side of a finished pass: at most one hit point lost,
        exactly when the player was not invincible and touches an enemy that
        is still alive; a hit leaves the knock-back, and without one the
        timer and horizontal speed are kept and the vertical motion is the
        stomp bounce or unchanged. */
    lemma PassDoneHit(s0: PassState, alive: seq<bool>, previousBottom: real)
      requires |alive| == |enemies| && PassStart(s0) && PassDone(s0, Contacts(enemies, alive, previousBottom), PassOf(-1), AliveFlags(enemies))
      ensures s0.hp - 1 <= player.hp <= s0.hp
      ensures player.hp < s0.hp <==>
        s0.invincibleTimer <= 0.0 && exists j :: 0 <= j < |enemies| && enemies[j].alive && Touches(enemies[j])
      ensures player.hp < s0.hp ==> KnockedBack()
      ensures player.hp == s0.hp ==>
        && player.invincibleTimer == s0.invincibleTimer && player.vx == s0.vx
        && if exists j :: 0 <= j < |enemies| && alive[j] && !enemies[j].alive
           then player.vy == -PLAYER_STOMP_BOUNCE && !player.grounded
           else player.vy == s0.vy && player.grounded == s0.grounded
    {
      PassDoneHurt(s0, alive, previousBottom);
      PassDoneUnhurt(s0, alive, previousBottom);
    }

    /** The hit-point half of `PassDoneHit`. */
    lemma PassDoneHurt(s0: PassState, alive: seq<bool>, previousBottom: real)
      requires |alive| == |enemies| && PassStart(s0) && PassDone(s0, Contacts(enemies, alive, previousBottom), PassOf(-1), AliveFlags(enemies))
      ensures s0.hp - 1 <= player.hp <= s0.hp
      ensures player.hp < s0.hp <==>
        s0.invincibleTimer <= 0.0 && exists j :: 0 <= j < |enemies| && enemies[j].alive && Touches(enemies[j])
      ensures player.hp < s0.hp ==> KnockedBack()
    {
      var cs := Contacts(enemies, alive, previousBottom);
      ContactsAt(enemies, alive, previousBottom);
      PassEffect(cs, |cs|, s0);
      PassHit(cs, |cs|, s0);
      var r := Pass(cs, s0);
      if exists j :: 0 <= j < |enemies| && enemies[j].alive && Touches(enemies[j]) {
        var j :| 0 <= j < |enemies| && enemies[j].alive && Touches(enemies[j]);
        assert cs[j].alive && cs[j].touches && j != r.victim;
      }
    }

    /** The unhurt half of `PassDoneHit`. */
    lemma PassDoneUnhurt(s0: PassState, alive: seq<bool>, previousBottom: real)
      requires |alive| == |enemies| && PassStart(s0) && PassDone(s0, Contacts(enemies, alive, previousBottom), PassOf(-1), AliveFlags(enemies))
      ensures player.hp == s0.hp ==>
        && player.invincibleTimer == s0.invincibleTimer && player.vx == s0.vx
        && if exists j :: 0 <= j < |enemies| && alive[j] && !enemies[j].alive
           then player.vy == -PLAYER_STOMP_BOUNCE && !player.grounded
           else player.vy == s0.vy && player.grounded == s0.grounded
    {
      var cs := Contacts(enemies, alive, previousBottom);
      ContactsAt(enemies, alive, previousBottom);
      PassEffect(cs, |cs|, s0);
      var r := Pass(cs, s0);
      if r.victim >= 0 {
        assert alive[r.victim] && !enemies[r.victim].alive;
      }
    }

    /** The enemies' side of a finished pass: none revived, at most one
        stomped, and the stomped one was touched and landed on. When the first
        living enemy the player touches is one it lands on, that enemy is
        stomped; and a stomped enemy is the first touched one the player
        landed on. */
    lemma PassDoneStomp(s0: PassState, alive: seq<bool>, previousBottom: real)
      requires |alive| == |enemies| && PassStart(s0) && PassDone(s0, Contacts(enemies, alive, previousBottom), PassOf(-1), AliveFlags(enemies))
      ensures forall j :: 0 <= j < |enemies| && enemies[j].alive ==> alive[j]
      ensures forall j, k :: 0 <= j < k < |enemies| && alive[j] && alive[k] ==> enemies[j].alive || enemies[k].alive
      ensures forall j :: 0 <= j < |enemies| && alive[j] && !enemies[j].alive ==>
        Touches(enemies[j]) && LandsOn(enemies[j], previousBottom, s0.vy)
      ensures forall k :: 0 <= k < |enemies| && alive[k] && Touches(enemies[k]) && LandsOn(enemies[k], previousBottom, s0.vy) ==>
        (forall j :: 0 <= j < k && alive[j] ==> !Touches(enemies[j])) ==> !enemies[k].alive
      ensures forall j, k :: 0 <= j < k < |enemies| && alive[k] && !enemies[k].alive && alive[j] && Touches(enemies[j]) ==>
        !LandsOn(enemies[j], previousBottom, s0.vy)
    {
      var cs := Contacts(enemies, alive, previousBottom);
      ContactsAt(enemies, alive, previousBottom);
      PassEffect(cs, |cs|, s0);
      PassVictimFirst(cs, |cs|, s0);
      forall k | 0 <= k < |enemies| && alive[k] && Touches(enemies[k]) && LandsOn(enemies[k], previousBottom, s0.vy)
                 && (forall j :: 0 <= j < k && alive[j] ==> !Touches(enemies[j]))
        ensures !enemies[k].alive
      {
        PassFirstTouch(cs, k, s0);
      }
    }

    /** The contact pass's view of `es` (see `Contact`), with `alive` the
        flags at the start of the pass. */
    ghost function Contacts(es: seq<Enemy>, alive: seq<bool>, previousBottom: real): (cs: seq<Contact>)
      requires |alive| == |es|
      reads player`x, player`y, es`x, es`y
      ensures |cs| == |es|
    {
      if es == [] then []
      else [ContactOf(es[0], alive[0], previousBottom)] + Contacts(es[1..], alive[1..], previousBottom)
    }

    /** How enemy `e`, alive or not as `alive` says, meets the player. */
    ghost function ContactOf(e: Enemy, alive: bool, previousBottom: real): Contact
      reads player`x, player`y, e`x, e`y
    {
      Contact(alive, Touches(e), previousBottom <= e.y + 7.0, player.CenterX() < e.CenterX())
    }

    /** The contacts keep the alive flags they are given. */
    lemma {:induction false} ContactsAlive(es: seq<Enemy>, alive: seq<bool>, previousBottom: real)
      requires |alive| == |es|
      ensures forall j :: 0 <= j < |es| ==> Contacts(es, alive, previousBottom)[j].alive == alive[j]
    {
      if es != [] {
        ContactsAlive(es[1..], alive[1..], previousBottom);
      }
    }

    /** Entry `j` of `Contacts` is enemy `j`'s contact. */
    lemma {:induction false} ContactsAt(es: seq<Enemy>, alive: seq<bool>, previousBottom: real)
      requires |alive| == |es|
      ensures forall j :: 0 <= j < |es| ==>
        Contacts(es, alive, previousBottom)[j] == ContactOf(es[j], alive[j], previousBottom)
    {
      if es != [] {
        ContactsAt(es[1..], alive[1..], previousBottom);
        assert forall j :: 1 <= j < |es| ==> es[j] == es[1..][j - 1] && alive[j] == alive[1..][j - 1];
      }
    }

    /** The player's side of the contact pass, with `victim` as the stomped
        enemy's index. */
    ghost function PassOf(victim: int): PassState
      reads player`hp, player`invincibleTimer, player`vx, player`vy, player`grounded
    {
      PassState(player.hp, player.invincibleTimer, player.vx, player.vy, player.grounded, victim)
    }

    /** The loop of `ResolveEnemyContacts`: the player ends as `Pass` over the
        enemies' contacts leaves it, and exactly the enemy `Pass` names as
        victim (if any) is defeated. */
    method ContactPass(es: seq<Enemy>, previousBottom: real) returns (ghost victim: int)
      requires Distinct(es) && player.InBounds() && player.hp > 0 && mode == Playing
      modifies this`mode, this`score, es`alive
      modifies player`hp, player`invincibleTimer, player`vx, player`vy, player`grounded
      ensures PassOf(victim) == Pass(old(Contacts(es, AliveFlags(es), previousBottom)), old(PassOf(-1)))
      ensures -1 <= victim < |es|
      ensures player.InBounds()
      ensures mode == (if player.hp == 0 then GameOver else Playing)
      ensures forall j :: 0 <= j < |es| ==> es[j].alive == (old(es[j].alive) && j != victim)
      ensures score == old(score) + (if victim >= 0 then SCORE_PER_STOMP else 0)
      ensures CollectedFlags(coins) == old(CollectedFlags(coins))
      ensures Contacts(es, old(AliveFlags(es)), previousBottom) == old(Contacts(es, AliveFlags(es), previousBottom))
    {
      ghost var before := AliveFlags(es);
      ghost var cs := Contacts(es, before, previousBottom);
      ghost var s0 := PassOf(-1);
      ContactsAt(es, before, previousBottom);
      var i;
      i, victim := ContactLoop(es, previousBottom, before, cs, s0);
      assert PassOf(victim) == Pass(cs, s0) by {
        if i < |es| {
          PassStops(cs, i, |es|, s0);
        }
      }
    }

    /** The loop of `ContactPass`, over the contacts `cs` taken when it
        starts: it stops after `i` enemies, all of them or fewer when the
        player has no hit points left. */
    method ContactLoop(es: seq<Enemy>, previousBottom: real, ghost before: seq<bool>, ghost cs: seq<Contact>, ghost s0: PassState)
      returns (i: int, ghost victim: int)
      requires Distinct(es) && |before| == |es| && |cs| == |es| && PassStart(s0)
      requires forall j :: 0 <= j < |es| ==> cs[j] == ContactOf(es[j], before[j], previousBottom)
      requires forall j :: 0 <= j < |es| ==> es[j].alive == before[j]
      requires player.InBounds() && mode == Playing && PassOf(-1) == s0
      modifies this`mode, this`score, es`alive
      modifies player`hp, player`invincibleTimer, player`vx, player`vy, player`grounded
      ensures 0 <= i <= |es| && -1 <= victim < i
      ensures i < |es| ==> player.hp == 0
      ensures player.InBounds()
      ensures mode == (if player.hp == 0 then GameOver else Playing)
      ensures forall j :: 0 <= j < |es| ==> es[j].alive == (before[j] && j != victim)
      ensures score == old(score) + (if victim >= 0 then SCORE_PER_STOMP else 0)
      ensures PassOf(victim) == PassPrefix(cs, i, s0)
      ensures Contacts(es, before, previousBottom) == old(Contacts(es, before, previousBottom))
    {
      victim := -1;
      i := 0;
      while i < |es| && mode != GameOver
        invariant 0 <= i <= |es| && -1 <= victim < i
        invariant player.InBounds()
        invariant mode == (if player.hp == 0 then GameOver else Playing)
        invariant forall j :: 0 <= j < |es| ==> es[j].alive == (before[j] && j != victim)
        invariant score == old(score) + (if victim >= 0 then SCORE_PER_STOMP else 0)
        invariant PassOf(victim) == PassPrefix(cs, i, s0)
        invariant Contacts(es, before, previousBottom) == old(Contacts(es, before, previousBottom))
      {
        assert cs[i] == ContactOf(es[i], before[i], previousBottom);
        victim := ContactStep(es, i, previousBottom, before, cs, s0, old(score), victim);
        i := i + 1;
      }
    }

    /** One turn of the contact loop, on enemy number `i`: the loop's
        invariant before it, over the first `i` enemies, and after it, over
        the first `i + 1`. */
    method ContactStep(es: seq<Enemy>, i: int, previousBottom: real, ghost before: seq<bool>, ghost cs: seq<Contact>,
                       ghost s0: PassState, ghost score0: int, ghost victim: int) returns (ghost victim': int)
      requires Distinct(es) && |before| == |es| && |cs| == |es| && PassStart(s0)
      requires 0 <= i < |es| && -1 <= victim < i && mode != GameOver
      requires cs[i] == ContactOf(es[i], before[i], previousBottom)
      requires player.InBounds()
      requires mode == (if player.hp == 0 then GameOver else Playing)
      requires forall j :: 0 <= j < |es| ==> es[j].alive == (before[j] && j != victim)
      requires score == score0 + (if victim >= 0 then SCORE_PER_STOMP else 0)
      requires PassOf(victim) == PassPrefix(cs, i, s0)
      modifies {es[i]}`alive, this`mode, this`score
      modifies player`hp, player`invincibleTimer, player`vx, player`vy, player`grounded
      ensures -1 <= victim' < i + 1
      ensures player.InBounds()
      ensures mode == (if player.hp == 0 then GameOver else Playing)
      ensures forall j :: 0 <= j < |es| ==> es[j].alive == (before[j] && j != victim')
      ensures score == score0 + (if victim' >= 0 then SCORE_PER_STOMP else 0)
      ensures PassOf(victim') == PassPrefix(cs, i + 1, s0)
      ensures Contacts(es, before, previousBottom) == old(Contacts(es, before, previousBottom))
    {
      assert victim >= 0 ==> player.vy < 0.0 by {
        PassEffect(cs, i, s0);
      }
      victim' := MeetEnemy(es, i, previousBottom, cs[i], victim);
    }

    /** One iteration of the contact loop, on enemy number `i` of the pass,
        as `Meet` states it; `victim` is the pass's stomped enemy so far. The
        other enemies keep their flags. */
    method MeetEnemy(es: seq<Enemy>, i: int, previousBottom: real, ghost c: Contact, ghost victim: int) returns (ghost victim': int)
      requires 0 <= i < |es| && Distinct(es)
      requires c == ContactOf(es[i], es[i].alive, previousBottom)
      requires victim < i && player.InBounds() && player.hp > 0 && mode == Playing
      modifies {es[i]}`alive, this`mode, this`score
      modifies player`hp, player`invincibleTimer, player`vx, player`vy, player`grounded
      ensures PassOf(victim') == Meet(old(PassOf(victim)), c, i)
      ensures player.InBounds()
      ensures mode == (if player.hp == 0 then GameOver else Playing)
      ensures es[i].alive == (old(es[i].alive) && victim' != i)
      ensures forall j :: 0 <= j < |es| && j != i ==> es[j].alive == old(es[j].alive)
      ensures victim' == victim || victim' == i
      ensures victim' == i ==> old(es[i].alive) && old(player.vy) >= 0.0
      ensures score == old(score) + (if victim' == i then SCORE_PER_STOMP else 0)
    {
      victim' := victim;
      var enemy := es[i];
      if enemy.alive {
        var stomped := ContactEnemy(enemy, previousBottom);
        if stomped {
          victim' := i;
        }
      }
    }

    /** `stepPlaying`: one simulation tick of a run in progress, the movement
        half (`AdvanceBodies`) then the contact half. The run ends in game
        over when the player has no hit points left or fell below the death
        plane, and otherwise in a clear when the player touches the goal; the
        death plane is checked first. */
    method StepPlaying(dt: real, input: InputState)
      requires Valid() && mode == Playing
      modifies this`mode, this`score, this`collectedCoins, input`justPressed
      modifies enemies`x, enemies`y, enemies`vx, enemies`vy, enemies`grounded, enemies`direction, enemies`alive
      modifies coins`collected
      modifies player`x, player`y, player`vx, player`vy, player`grounded, player`invincibleTimer, player`hp
      ensures Valid() && elapsedSeconds == old(elapsedSeconds)
      ensures input.justPressed == old(input.justPressed) - {"Space"}
      ensures old(player.hp) - 1 <= player.hp <= old(player.hp)
      ensures Defeated(enemies) <= old(Defeated(enemies)) + 1
      ensures forall i :: 0 <= i < |coins| ==> old(coins[i].collected) ==> coins[i].collected
      ensures forall i :: 0 <= i < |enemies| ==> enemies[i].alive ==> old(enemies[i].alive)
      ensures mode == GameOver <==> player.hp == 0 || player.y > level.deathY
      ensures mode == Clear <==> player.hp > 0 && player.y <= level.deathY && RectsOverlap(player.Rect(), level.goal)
      ensures mode == Playing || mode == GameOver || mode == Clear
      ensures TickOutcome(old(TickStartOf(dt, input)))
    {
      ghost var t := TickStartOf(dt, input);
      PlayTick(dt, input);
      TickOutcomeMeans(t);
      TickOutcomeBounds(t);
    }

    /** The two halves of `stepPlaying`, ending in the outcome `TickResult`
        gives for the tick's start. */
    method PlayTick(dt: real, input: InputState)
      requires Valid() && mode == Playing
      modifies this`mode, this`score, this`collectedCoins, input`justPressed
      modifies enemies`x, enemies`y, enemies`vx, enemies`vy, enemies`grounded, enemies`direction, enemies`alive
      modifies coins`collected
      modifies player`x, player`y, player`vx, player`vy, player`grounded, player`invincibleTimer, player`hp
      ensures Valid() && elapsedSeconds == old(elapsedSeconds)
      ensures input.justPressed == old(input.justPressed) - {"Space"}
      ensures TickOutcome(old(TickStartOf(dt, input)))
    {
      var previousBottom := AdvanceBodies(dt, input);
      ResolveInteractions(previousBottom);
    }

    /** The start of a playing tick taken in the current state: the motion
        after `RunStep` and the timer after counting down by `dt`. */
    ghost function TickStartOf(dt: real, input: InputState): TickStart
      reads this`enemies, this`coins, enemies, coins, player, input
    {
      var m := RunStep(player.Motion(), input.IsDown("ArrowRight"), input.IsDown("ArrowLeft"),
                       "Space" in input.justPressed, dt, level.solids);
      TickStart(PassState(player.hp, Max(0.0, player.invincibleTimer - dt), m.vx, m.vy, m.grounded, -1),
                m.x, m.y, AliveFlags(enemies), CollectedFlags(coins), player.Bottom())
    }

    /** The start of the contact half of a playing tick, taken in the
        current state. */
    ghost function TickStartHere(previousBottom: real): TickStart
      reads this`enemies, this`coins, enemies`alive, coins`collected
      reads player`x, player`y, player`hp, player`invincibleTimer, player`vx, player`vy, player`grounded
    {
      TickStart(PassOf(-1), player.x, player.y, AliveFlags(enemies), CollectedFlags(coins), previousBottom)
    }

    /** The current state, as far as a tick's outcome goes. */
    ghost function View(): TickView
      reads this`mode, this`enemies, this`coins, enemies`alive, coins`collected
      reads player`x, player`y, player`hp, player`invincibleTimer, player`vx, player`vy, player`grounded
    {
      TickView(player.x, player.y, CollectedFlags(coins), PassOf(-1), AliveFlags(enemies), mode)
    }

    /** What a playing tick from `t` leaves: the player where the movement
        half put it; a coin collected if it was or it touches the player's
        rectangle there; the player and the enemies as `Pass` over the
        enemies' contacts leaves them; and the end-of-tick verdict on the hit
        points that pass leaves. */
    ghost function TickResult(t: TickStart): TickView
      requires |t.alive| == |enemies| && |t.collected| == |coins|
      reads this`enemies, this`coins, enemies`x, enemies`y, player`x, player`y
    {
      var rect := Rect(t.x, t.y, PLAYER_WIDTH, PLAYER_HEIGHT);
      var cs := Contacts(enemies, t.alive, t.previousBottom);
      var r := Pass(cs, t.pass);
      TickView(t.x, t.y, Gathered(t.collected, coins, rect), r.(victim := -1), Survivors(cs, r.victim),
               RunVerdict(r.hp, t.y, level.deathY, RectsOverlap(rect, level.goal)))
    }

    /** A playing tick from `t` came out as `TickResult` says;
        `TickOutcomeMeans` and `TickOutcomeBounds` spell that out. */
    ghost predicate TickOutcome(t: TickStart)
      reads this`mode, this`enemies, this`coins, enemies`alive, enemies`x, enemies`y, coins`collected
      reads player`x, player`y, player`hp, player`invincibleTimer, player`vx, player`vy, player`grounded
    {
      |t.alive| == |enemies| && |t.collected| == |coins| && View() == TickResult(t)
    }

    /** After a playing tick from `t`: the player stands where the movement
        half put it, every coin its rectangle touches is collected and no
        other changes, the enemy contacts came out as `Pass` says
        (`PassDoneHit` and `PassDoneStomp` spell that out), and the run ended
        as the end-of-tick checks say. */
    lemma TickOutcomeMeans(t: TickStart)
      requires TickOutcome(t) && PassStart(t.pass)
      ensures player.x == t.x && player.y == t.y
      ensures CoinsResolved(t.collected)
      ensures PassDone(t.pass, Contacts(enemies, t.alive, t.previousBottom), PassOf(-1), AliveFlags(enemies))
      ensures RunEnded()
    {
      var cs := Contacts(enemies, t.alive, t.previousBottom);
      PassEffect(cs, |cs|, t.pass);
    }

    /** The converse of `TickOutcomeMeans`: a state where the player stands
        at `t`'s position, the coins are resolved, the pass over the contacts
        is done and the run's verdict is taken is the outcome of `t`. */
    lemma TickOutcomeFrom(t: TickStart)
      requires |t.alive| == |enemies| && player.x == t.x && player.y == t.y
      requires CoinsResolved(t.collected)
      requires PassDone(t.pass, Contacts(enemies, t.alive, t.previousBottom), PassOf(-1), AliveFlags(enemies))
      requires RunEnded() && player.hp >= 0
      ensures TickOutcome(t)
    {
    }

    /** After a playing tick from `t`: at most one hit point lost, no coin
        uncollected, no enemy revived and at most one defeated. */
    lemma TickOutcomeBounds(t: TickStart)
      requires TickOutcome(t) && PassStart(t.pass)
      ensures t.pass.hp - 1 <= player.hp <= t.pass.hp
      ensures forall i :: 0 <= i < |coins| ==> t.collected[i] ==> coins[i].collected
      ensures forall i :: 0 <= i < |enemies| ==> enemies[i].alive ==> t.alive[i]
      ensures Defeated(enemies) <= |enemies| - CountTrue(t.alive) + 1
    {
      var cs := Contacts(enemies, t.alive, t.previousBottom);
      PassEffect(cs, |cs|, t.pass);
      ContactsAlive(enemies, t.alive, t.previousBottom);
      var v := Pass(cs, t.pass).victim;
      assert AliveFlags(enemies) == Survivors(cs, v);
      CountAfterClear(t.alive, AliveFlags(enemies), v);
    }

    /** Against the flags `collected0`: a coin is collected exactly when it
        was already or it touches the player's rectangle. */
    ghost predicate CoinsResolved(collected0: seq<bool>)
      reads this`coins, coins`collected, player`x, player`y
    {
      |collected0| == |coins| && CollectedFlags(coins) == Gathered(collected0, coins, player.Rect())
    }

    /** Coins each collected exactly when they were in `collected0` or touch
        the player's rectangle are `CoinsResolved` against `collected0`. */
    lemma CoinsResolvedBy(collected0: seq<bool>)
      requires |collected0| == |coins|
      requires forall i :: 0 <= i < |coins| ==>
        coins[i].collected == (collected0[i] || CircleIntersectsRect(coins[i].x, coins[i].y, coins[i].r, player.Rect()))
      ensures CoinsResolved(collected0)
    {
      assert CollectedFlags(coins) == Gathered(collected0, coins, player.Rect());
    }

    /** The end-of-tick checks' verdict: game over with no hit points left or
        below the death plane, otherwise a clear on touching the goal. */
    ghost predicate RunEnded()
      reads this`mode, player`x, player`y, player`hp
    {
      && (mode == GameOver <==> player.hp == 0 || player.y > level.deathY)
      && (mode == Clear <==> player.hp > 0 && player.y <= level.deathY && RectsOverlap(player.Rect(), level.goal))
      && (mode == Playing || mode == GameOver || mode == Clear)
    }

    /** The movement half of a playing tick: the player, then every living
        enemy. Flags, counters and hit points are not touched. */
    method AdvanceBodies(dt: real, input: InputState) returns (previousBottom: real)
      requires Valid() && mode == Playing
      modifies input`justPressed
      modifies enemies`x, enemies`y, enemies`vx, enemies`vy, enemies`grounded, enemies`direction
      modifies player`x, player`y, player`vx, player`vy, player`grounded, player`invincibleTimer
      ensures Valid()
      ensures player.hp == old(player.hp) && Defeated(enemies) == old(Defeated(enemies))
      ensures forall i :: 0 <= i < |coins| ==> coins[i].collected == old(coins[i].collected)
      ensures forall i :: 0 <= i < |enemies| ==> enemies[i].alive == old(enemies[i].alive)
      ensures previousBottom == old(player.Bottom())
      ensures TickStartHere(previousBottom) == old(TickStartOf(dt, input))
      ensures input.justPressed == old(input.justPressed) - {"Space"}
      ensures player.Motion() == RunStep(old(player.Motion()), input.IsDown("ArrowRight"), input.IsDown("ArrowLeft"),
                                         "Space" in old(input.justPressed), dt, level.solids)
      ensures player.invincibleTimer == Max(0.0, old(player.invincibleTimer) - dt)
      ensures forall i :: 0 <= i < |enemies| ==>
        enemies[i].Motion() ==
          if enemies[i].alive
          then PatrolStep(old(enemies[i].Motion()), enemies[i].patrolMin, enemies[i].patrolMax, dt, level.solids)
          else old(enemies[i].Motion())
    {
      previousBottom := AdvancePlayer(dt, input);
      AdvanceEnemies(dt);
    }

    /** The player half of `AdvanceBodies`, keeping the invariant. */
    method AdvancePlayer(dt: real, input: InputState) returns (previousBottom: real)
      requires Valid() && mode == Playing
      modifies input`justPressed
      modifies player`x, player`y, player`vx, player`vy, player`grounded, player`invincibleTimer
      ensures Valid()
      ensures player.hp == old(player.hp) && Defeated(enemies) == old(Defeated(enemies))
      ensures forall i :: 0 <= i < |coins| ==> coins[i].collected == old(coins[i].collected)
      ensures forall i :: 0 <= i < |enemies| ==> enemies[i].alive == old(enemies[i].alive)
      ensures previousBottom == old(player.Bottom())
      ensures TickStartHere(previousBottom) == old(TickStartOf(dt, input))
      ensures input.justPressed == old(input.justPressed) - {"Space"}
      ensures player.Motion() == RunStep(old(player.Motion()), input.IsDown("ArrowRight"), input.IsDown("ArrowLeft"),
                                         "Space" in old(input.justPressed), dt, level.solids)
      ensures player.invincibleTimer == Max(0.0, old(player.invincibleTimer) - dt)
    {
      previousBottom := UpdatePlayer(dt, input);
    }

    /** The enemy half of `AdvanceBodies`, keeping the invariant. */
    method AdvanceEnemies(dt: real)
      requires Valid()
      modifies enemies`x, enemies`y, enemies`vx, enemies`vy, enemies`grounded, enemies`direction
      ensures Valid()
      ensures player.Motion() == old(player.Motion()) && Defeated(enemies) == old(Defeated(enemies))
      ensures PassOf(-1) == old(PassOf(-1)) && AliveFlags(enemies) == old(AliveFlags(enemies))
      ensures CollectedFlags(coins) == old(CollectedFlags(coins))
      ensures forall i :: 0 <= i < |coins| ==> coins[i].collected == old(coins[i].collected)
      ensures forall i :: 0 <= i < |enemies| ==>
        && enemies[i].alive == old(enemies[i].alive)
        && enemies[i].Motion() ==
             if enemies[i].alive
             then PatrolStep(old(enemies[i].Motion()), enemies[i].patrolMin, enemies[i].patrolMax, dt, level.solids)
             else old(enemies[i].Motion())
    {
      UpdateEnemies(dt);
      ScoreUnchanged();
    }

    /** The counters still agree with the flags when neither the counters
        nor any flag changed. */
    twostate lemma ScoreUnchanged()
      requires old(ScoreOk())
      requires enemies == old(enemies) && coins == old(coins)
      requires score == old(score) && collectedCoins == old(collectedCoins)
      requires forall i :: 0 <= i < |enemies| ==> enemies[i].alive == old(enemies[i].alive)
      requires forall i :: 0 <= i < |coins| ==> coins[i].collected == old(coins[i].collected)
      ensures ScoreOk()
    {
      assert AliveFlags(enemies) == old(AliveFlags(enemies));
      assert CollectedFlags(coins) == old(CollectedFlags(coins));
    }

    /** The contact half of a playing tick: coins, then the enemy contacts,
        then the death plane and the goal (`EndRunIfOver`). The outcome is `TickResult`'s from
        the state it starts in. */
    method ResolveInteractions(previousBottom: real)
      requires Valid() && mode == Playing
      modifies this`mode, this`score, this`collectedCoins, enemies`alive, coins`collected
      modifies player`vx, player`vy, player`grounded, player`invincibleTimer, player`hp
      ensures Valid()
      ensures TickOutcome(old(TickStartHere(previousBottom)))
    {
      ghost var t := TickStartHere(previousBottom);
      ResolveTouches(previousBottom);
      EndRunIfOver(t.alive, previousBottom);
      TickOutcomeFrom(t);
    }

    /** The coin loop and the enemy loop of `stepPlaying`, before its end
        checks. */
    method ResolveTouches(previousBottom: real)
      requires Valid() && mode == Playing
      modifies this`mode, this`score, this`collectedCoins, enemies`alive, coins`collected
      modifies player`vx, player`vy, player`grounded, player`invincibleTimer, player`hp
      ensures EntitiesOk() && ScoreOk() && player.InBounds() && player.hp >= 0
      ensures mode == (if player.hp == 0 then GameOver else Playing)
      ensures CoinsResolved(old(CollectedFlags(coins)))
      ensures PassDone(old(PassOf(-1)), Contacts(enemies, old(AliveFlags(enemies)), previousBottom), PassOf(-1), AliveFlags(enemies))
    {
      CollectCoins();
      ResolveEnemyContacts(previousBottom);
    }

    /** The end-of-tick checks: a run that has not already ended in game over
        ends in game over below the death plane, and otherwise in a clear when
        the player touches the goal. */
    method EndRunIfOver(ghost alive: seq<bool>, ghost previousBottom: real)
      requires |alive| == |enemies|
      requires player.hp >= 0 && mode == (if player.hp == 0 then GameOver else Playing)
      modifies this`mode
      ensures EntitiesOk() == old(EntitiesOk()) && ScoreOk() == old(ScoreOk())
      ensures mode == GameOver <==> player.hp == 0 || player.y > level.deathY
      ensures mode == Clear <==> player.hp > 0 && player.y <= level.deathY && RectsOverlap(player.Rect(), level.goal)
      ensures mode == Playing || mode == GameOver || mode == Clear
      ensures Contacts(enemies, alive, previousBottom) == old(Contacts(enemies, alive, previousBottom))
      ensures PassOf(-1) == old(PassOf(-1)) && AliveFlags(enemies) == old(AliveFlags(enemies))
      ensures CollectedFlags(coins) == old(CollectedFlags(coins))
    {
      if mode == GameOver {
        return;
      }
      if player.y > level.deathY {
        mode := GameOver;
        return;
      }
      if RectsOverlap(player.Rect(), level.goal) {
        mode := Clear;
      }
    }

    /** `step`: advance the clock, then act on the mode: the start-button
        modes wait for Space or Enter, Enter toggles pause, and otherwise a
        playing tick runs the simulation. The invariant holds after every
        step, and the mode moves only along the transitions below; the
        handlers for each mode state the rest. */
    method Step(dt: real, input: InputState)
      requires Valid()
      modifies this, player, camera`x, camera`y, enemies, coins, input`justPressed
      ensures Valid()
      ensures old(ShouldShowStartButton()) ==>
        if "Space" in old(input.justPressed) || "Enter" in old(input.justPressed)
        then mode == Playing && RoundStart()
        else mode == old(mode) && elapsedSeconds == old(elapsedSeconds) + dt
      ensures old(mode) == Paused ==>
        && mode == (if "Enter" in old(input.justPressed) then Playing else Paused)
        && elapsedSeconds == old(elapsedSeconds) + dt
      ensures old(mode) == Playing ==>
        && elapsedSeconds == old(elapsedSeconds) + dt
        && (mode == Paused <==> "Enter" in old(input.justPressed))
        && (mode == Playing || mode == Paused || mode == GameOver || mode == Clear)
      ensures old(mode) == Playing && "Enter" !in old(input.justPressed) ==>
        TickOutcome(old(TickStartOf(dt, input))) && CameraOnPlayer()
      ensures old(mode) == Playing && "Enter" in old(input.justPressed) ==>
        && unchanged(player, camera) && enemies == old(enemies) && coins == old(coins) && unchanged(enemies, coins)
        && score == old(score) && collectedCoins == old(collectedCoins)
      ensures old(ShouldShowStartButton()) ==> CameraOnPlayer()
      ensures old(ShouldShowStartButton()) && "Space" !in old(input.justPressed) && "Enter" !in old(input.justPressed) ==>
        && unchanged(player) && enemies == old(enemies) && coins == old(coins) && unchanged(enemies, coins)
        && score == old(score) && collectedCoins == old(collectedCoins)
      ensures old(mode) == Paused ==>
        && unchanged(player, camera) && enemies == old(enemies) && coins == old(coins) && unchanged(enemies, coins)
        && score == old(score) && collectedCoins == old(collectedCoins)
    {
      ghost var t := TickStartOf(dt, input);
      AdvanceClock(dt);
      assert TickStartOf(dt, input) == t;
      StepMode(dt, input);
    }

    /** The clock advance that starts every `step`; the invariant does not
        depend on the clock. */
    method AdvanceClock(dt: real)
      requires Valid()
      modifies this`elapsedSeconds
      ensures Valid() && elapsedSeconds == old(elapsedSeconds) + dt
    {
      elapsedSeconds := elapsedSeconds + dt;
    }

    /** The mode-dependent half of `step`, after the clock has advanced. */
    method StepMode(dt: real, input: InputState)
      requires Valid()
      modifies this, player, camera`x, camera`y, enemies, coins, input`justPressed
      ensures Valid()
      ensures old(ShouldShowStartButton()) ==>
        if "Space" in old(input.justPressed) || "Enter" in old(input.justPressed)
        then mode == Playing && RoundStart()
        else mode == old(mode) && elapsedSeconds == old(elapsedSeconds)
      ensures old(mode) == Paused ==>
        && mode == (if "Enter" in old(input.justPressed) then Playing else Paused)
        && elapsedSeconds == old(elapsedSeconds)
      ensures old(mode) == Playing ==>
        && elapsedSeconds == old(elapsedSeconds)
        && (mode == Paused <==> "Enter" in old(input.justPressed))
        && (mode == Playing || mode == Paused || mode == GameOver || mode == Clear)
      ensures old(mode) == Playing && "Enter" !in old(input.justPressed) ==>
        TickOutcome(old(TickStartOf(dt, input))) && CameraOnPlayer()
      ensures old(mode) == Playing && "Enter" in old(input.justPressed) ==>
        && unchanged(player, camera) && enemies == old(enemies) && coins == old(coins) && unchanged(enemies, coins)
        && score == old(score) && collectedCoins == old(collectedCoins)
      ensures old(ShouldShowStartButton()) ==> CameraOnPlayer()
      ensures old(ShouldShowStartButton()) && "Space" !in old(input.justPressed) && "Enter" !in old(input.justPressed) ==>
        && unchanged(player) && enemies == old(enemies) && coins == old(coins) && unchanged(enemies, coins)
        && score == old(score) && collectedCoins == old(collectedCoins)
      ensures old(mode) == Paused ==>
        && unchanged(player, camera) && enemies == old(enemies) && coins == old(coins) && unchanged(enemies, coins)
        && score == old(score) && collectedCoins == old(collectedCoins)
    {
      if mode == Title || mode == GameOver || mode == Clear {
        StepMenu(input);
      } else if mode == Paused {
        StepPaused(input);
      } else {
        StepRunning(dt, input);
      }
    }

    /** Title, game over and clear: a press of Space or Enter starts a run
        (Space is taken first, so only one of the two is consumed), and the
        camera follows the player. */
    method StepMenu(input: InputState)
      requires Valid() && ShouldShowStartButton()
      modifies this, player, camera`x, camera`y, input`justPressed
      ensures Valid() && CameraOnPlayer()
      ensures input.justPressed == old(input.justPressed) - (if "Space" in old(input.justPressed) then {"Space"} else {"Enter"})
      ensures if "Space" in old(input.justPressed) || "Enter" in old(input.justPressed)
              then mode == Playing && RoundStart()
              else unchanged(this, player) && unchanged(enemies, coins)
    {
      var start := input.ConsumePress("Space");
      if !start {
        start := input.ConsumePress("Enter");
      }
      if start {
        StartRunAndFollow();
      } else {
        UpdateCamera();
      }
    }

    /** A run started from a menu, followed by the menu's camera update. */
    method StartRunAndFollow()
      modifies this, player, camera`x, camera`y
      ensures Valid() && RoundStart() && CameraOnPlayer()
      ensures mode == Playing
    {
      StartRun();
      UpdateCamera();
    }

    /** Paused: a press of Enter resumes the run; nothing else moves. */
    method StepPaused(input: InputState)
      requires Valid() && mode == Paused
      modifies this`mode, input`justPressed
      ensures Valid() && elapsedSeconds == old(elapsedSeconds)
      ensures mode == (if "Enter" in old(input.justPressed) then Playing else Paused)
      ensures input.justPressed == old(input.justPressed) - {"Enter"}
      ensures unchanged(player, camera) && unchanged(enemies, coins)
      ensures score == old(score) && collectedCoins == old(collectedCoins)
      ensures enemies == old(enemies) && coins == old(coins)
    {
      var resume := input.ConsumePress("Enter");
      if resume {
        mode := Playing;
      }
    }

    /** Playing: a press of Enter pauses without simulating; otherwise one
        simulation tick runs (`StepPlaying` states what it does) and the
        camera follows the player. */
    method StepRunning(dt: real, input: InputState)
      requires Valid() && mode == Playing
      modifies this`mode, this`score, this`collectedCoins, input`justPressed
      modifies enemies`x, enemies`y, enemies`vx, enemies`vy, enemies`grounded, enemies`direction, enemies`alive
      modifies coins`collected, camera`x, camera`y
      modifies player`x, player`y, player`vx, player`vy, player`grounded, player`invincibleTimer, player`hp
      ensures Valid()
      ensures elapsedSeconds == old(elapsedSeconds)
      ensures mode == Paused <==> "Enter" in old(input.justPressed)
      ensures mode == Playing || mode == Paused || mode == GameOver || mode == Clear
      ensures "Enter" in old(input.justPressed) ==>
        && mode == Paused && input.justPressed == old(input.justPressed) - {"Enter"}
        && score == old(score) && collectedCoins == old(collectedCoins)
        && unchanged(player, camera) && unchanged(enemies) && unchanged(coins)
      ensures "Enter" !in old(input.justPressed) ==>
        && input.justPressed == old(input.justPressed) - {"Space"}
        && CameraOnPlayer()
        && TickOutcome(old(TickStartOf(dt, input)))
    {
      ghost var t := TickStartOf(dt, input);
      var pause := input.ConsumePress("Enter");
      assert !pause ==> TickStartOf(dt, input) == t;
      if pause {
        PauseRun();
      } else {
        PlayAndFollow(dt, input);
      }
    }

    /** Enter during a run pauses it and touches nothing else. */
    method PauseRun()
      requires Valid() && mode == Playing
      modifies this`mode
      ensures Valid() && mode == Paused
    {
      mode := Paused;
    }

    /** A playing tick followed by the camera. */
    method PlayAndFollow(dt: real, input: InputState)
      requires Valid() && mode == Playing
      modifies this`mode, this`score, this`collectedCoins, input`justPressed
      modifies enemies`x, enemies`y, enemies`vx, enemies`vy, enemies`grounded, enemies`direction, enemies`alive
      modifies coins`collected, camera`x, camera`y
      modifies player`x, player`y, player`vx, player`vy, player`grounded, player`invincibleTimer, player`hp
      ensures Valid() && CameraOnPlayer()
      ensures elapsedSeconds == old(elapsedSeconds)
      ensures mode == Playing || mode == GameOver || mode == Clear
      ensures input.justPressed == old(input.justPressed) - {"Space"}
      ensures TickOutcome(old(TickStartOf(dt, input)))
    {
      ghost var t := TickStartOf(dt, input);
      StepPlaying(dt, input);
      FollowAfterTick(t);
    }

    /** The camera update after a playing tick from `t`, which leaves the
        tick's outcome as it was. */
    method FollowAfterTick(ghost t: TickStart)
      requires TickOutcome(t)
      modifies camera`x, camera`y
      ensures CameraOnPlayer() && TickOutcome(t)
      ensures old(Valid()) ==> Valid()
    {
      UpdateCamera();
    }
  }
}
