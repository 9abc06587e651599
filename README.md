# A verified model of a 2D platformer engine

This project models, in Dafny, the deterministic part of a small browser
platformer written in TypeScript, and the input checks of the browser
automation client that drives it.

- **Collision resolver.** `physics.ts` contains `clamp`, the strict
  axis-aligned overlap test, the circle-versus-rectangle pickup test and the
  inclusive ground probe. It also contains `moveBody`, which integrates x,
  snaps against the solids, then integrates y from the resolved x and snaps
  again. `MoveBody` keeps the two loops over the solids. It is proved equal to
  `MoveBodySpec`, a fold of one snap step over the solid list. The contact,
  snapping and velocity-zeroing rules are lemmas about that fold.
- **Entities.** Player, enemy and coin records are classes whose fields the
  methods update in place. The camera and the edge-triggered keyboard buffer
  (`pressed` / `justPressed` sets) are classes as well.
- **Game.** `Game` owns the player and sequences of enemy and coin objects. It
  runs the mode machine: title, playing, paused, game over and clear. It also
  runs one fixed-step playing tick: steering with friction and the speed
  clamp, the jump, gravity, the move, enemy patrol, coin pickup, stomps versus
  contact damage, the death plane and the goal. Every public operation keeps
  the invariant `Valid`. `Valid` says:
  - the player is within its speed and hit-point bounds, and alive during a run;
  - there is one enemy and one coin object per spawn;
  - `collectedCoins` is the number of collected coins;
  - `score` is `SCORE_PER_COIN` per coin plus `SCORE_PER_STOMP` per defeated enemy.

  A player tick and an enemy tick are also given as functions of the values
  they read (`RunStep`, `PatrolStep`). The methods are proved against them.
- **Level helpers.** `coinsAbovePlatforms` and `trailCoins` are loops that
  build coin lists. `createStageLevels` lists the five stages in play order.
- **Automation client checks.** The model covers `parseBoundedInteger`,
  `parseBoolean`, `parseActionsPayload`, `normalizeSteps` and
  `ConsoleErrorTracker`. Each thrown message becomes an `Err` value of
  `ActionError`. The JSON values the client reads are a `Json` datatype.

Modelling choices:
- Numbers are Dafny `real`s. This is an idealisation of JavaScript doubles;
  the engine's logic is comparisons and snapping.
- `Game` takes its `LevelData` as a constructor parameter.
  `src/game/Game.ts:61` calls `createLevel1`, which `src/game/level.ts` does
  not export.

## Model

| member | source | states |
|---|---|---|
| Types.Reverse | src/game/Game.ts:236 | `direction *= -1` gives the opposite facing: the negation, never the same facing |
| Physics.Clamp | src/game/physics.ts:13-15 | for min <= max the result lies in [min, max]; it is the value itself when that is in range, else the bound it passed; for max < min the result is min |
| Physics.RectsOverlapSymmetric | src/game/physics.ts:17-19 | overlap does not depend on argument order |
| Physics.SharedEdgeIsNoOverlap | src/game/physics.ts:17-19 | the test is strict: rectangles that only share a vertical or horizontal edge do not overlap |
| Physics.RectsOverlapIffCommonInterior | src/game/physics.ts:17-19 | for rectangles of positive size, overlap holds exactly when some point lies in both open interiors |
| Physics.CircleCentreInsideIntersects | src/game/physics.ts:21-27 | a circle whose centre lies in the rectangle (edges included) touches it, whatever its radius |
| Physics.ClampIsNearest | src/game/physics.ts:22-25 | the clamped coordinate is the point of the interval nearest the centre |
| Physics.CircleIntersectsRectIffNearPoint | src/game/physics.ts:21-27 | for a rectangle of non-negative size, the test holds exactly when some point of the closed rectangle lies within the radius of the centre |
| Physics.HasGroundAtIff | src/game/physics.ts:29-31 | the probe holds exactly when some solid contains the point, edges included; it is false for no solids |
| Physics.MoveBody | src/game/physics.ts:33-81 | the two loops compute `MoveBodySpec`: the horizontal pass over the solids in list order, then the vertical pass from the resolved x |
| Physics.SweepAtRest | src/game/physics.ts:41-53 | a pass whose velocity is zero leaves rectangle, velocity and flags as they were |
| Physics.SweepMiss | src/game/physics.ts:41-44 | a pass whose moved rectangle overlaps no solid changes nothing |
| Physics.SweepFirstHit | src/game/physics.ts:41-53 | only the first overlapping solid in list order decides the outcome, because later solids see a zero velocity |
| Physics.SweepKeepsShape | src/game/physics.ts:45-51 | a pass keeps the width and height and moves the rectangle along its own axis only |
| Physics.SweepFlags | src/game/physics.ts:45-52 | a pass preserves the flag rules: the velocity is kept or zeroed, a flag is set only when moving towards that side and then the velocity is zero, and a moving axis stops only with a flag set |
| Physics.MoveBodyAtRest | src/game/physics.ts:38-70 | with vx = vy = 0 the result is the input rectangle, both velocities 0 and all four flags false |
| Physics.MoveBodyKeepsSize | src/game/physics.ts:34-55 | the result has the input's width and height, and its x is the x the horizontal pass resolved |
| Physics.MoveBodyContacts | src/game/physics.ts:45-69 | hitRight implies vx > 0 and output vx = 0, hitLeft implies vx < 0 and output vx = 0, never both; the same for hitBottom/hitTop with vy; each velocity is kept or zeroed, and a zeroed moving velocity comes with a flag |
| Physics.MoveBodyFreeX | src/game/physics.ts:38-44 | if the x-moved rectangle overlaps no solid, x = rect.x + vx·dt, vx is kept and no side flag is set |
| Physics.MoveBodySnapX | src/game/physics.ts:41-53 | otherwise x snaps against the first overlapping solid: to its left edge moving right, to its right edge moving left; vx becomes 0 and the flag matches the direction |
| Physics.MoveBodyFreeY | src/game/physics.ts:55-61 | the vertical pass starts from the resolved x: with no overlap there, y = rect.y + vy·dt, vy is kept and no flag is set |
| Physics.MoveBodySnapY | src/game/physics.ts:58-70 | otherwise y snaps onto the first overlapping solid's top when falling and under its bottom when rising; vy becomes 0 |
| Physics.MoveBodyMayEndInsideSolid | src/game/physics.ts:41-53 | a concrete list of two solids where the body, snapped against the first, ends inside the second |
| Level.CreateStageLevels | src/game/level.ts:140-148 | `TOTAL_STAGES` (5) stages, the i-th numbered i + 1 |
| Level.StagesAreWellFormed | src/game/level.ts:203-633 | every built-in stage has its death plane below the world and its spawn point and goal inside the world's width |
| Level.CoinsAbovePlatforms | src/game/level.ts:636-643 | two coins per platform in platform order, at 30% and 70% of its width, offsetY above its top, of the given radius; both lie within the platform's span when its width is not negative |
| Level.TrailCoins | src/game/level.ts:645-657 | count coins (none for a negative count), each of radius 8 at the interpolated x; the first at startX, the last at endX; for endX >= startX the xs never decrease and stay within [startX, endX] |
| Level.TrailEnds | src/game/level.ts:649-651 | the trail's first x is startX and, for two coins or more, its last x is endX |
| Level.TrailTMonotone | src/game/level.ts:649 | the interpolation parameter never decreases along the trail |
| Level.TrailXMonotone | src/game/level.ts:649-651 | along a left-to-right trail coin x never decreases |
| Level.TrailXWithinSpan | src/game/level.ts:649-651 | every coin of a left-to-right trail lies between startX and endX |
| PlayerEntity.Player.constructor | src/game/entities/Player.ts:25-27 | a new player is in the reset state for the spawn |
| PlayerEntity.Player.Reset | src/game/entities/Player.ts:29-43 | position at the spawn, facing 1, zero velocity, full hit points, not grounded, every timer zero and one air jump; within the per-tick bounds |
| PlayerEntity.Player.Rect | src/game/entities/Player.ts:45-47 | the rectangle at the player's position, of size PLAYER_WIDTH × PLAYER_HEIGHT |
| PlayerEntity.Player.ApplyRect | src/game/entities/Player.ts:49-52 | moves the player to the rectangle's position and may change nothing else |
| PlayerEntity.PlayerGeometry | src/game/entities/Player.ts:54-64 | centerX = x + w/2 and centerY = y + h/2 lie strictly inside the rectangle, and bottom = y + h |
| PlayerEntity.ApplyOwnRect | src/game/entities/Player.ts:45-52 | applying the player's own rectangle leaves every field unchanged |
| EnemyEntity.DefaultPatrolRange | src/game/entities/Enemy.ts:22-23 | without patrol bounds in the spawn, patrolMin < spawn.x < patrolMax, 360 px apart |
| EnemyEntity.Enemy.constructor | src/game/entities/Enemy.ts:18-24 | position from the spawn, zero velocity, not grounded, alive, direction 1 unless given, patrol bounds spawn.x ∓ 180 unless given |
| EnemyEntity.SpawnIgnoresTier | src/game/entities/Enemy.ts:18-24 | the spawn's tier plays no part in the enemy built from it |
| EnemyEntity.Enemy.Rect | src/game/entities/Enemy.ts:26-28 | the rectangle at the enemy's position, of size ENEMY_WIDTH × ENEMY_HEIGHT |
| EnemyEntity.Enemy.ApplyRect | src/game/entities/Enemy.ts:30-33 | moves the enemy to the rectangle's position and may change nothing else |
| EnemyEntity.EnemyGeometry | src/game/entities/Enemy.ts:35-37 | centerX = x + w/2 lies strictly inside the enemy's rectangle |
| EnemyEntity.ApplyOwnRect | src/game/entities/Enemy.ts:26-33 | applying the enemy's own rectangle leaves every field unchanged |
| CoinEntity.Coin.constructor | src/game/entities/Coin.ts:7-13 | x, y and r from the spawn, not collected |
| CameraView.FollowAxis | src/game/camera.ts:13-16 | the position lies in [0, max(0, world − viewport)]; it is target − viewport/2 when that is in range, else the bound it passed; it is 0 for a world no wider than the viewport |
| CameraView.Camera.constructor | src/game/camera.ts:4-10 | the viewport size as given, at the origin |
| CameraView.Camera.Follow | src/game/camera.ts:12-17 | each axis becomes `FollowAxis` of the arguments, whatever the old position; the viewport is constant |
| CameraView.FollowIsIdempotent | src/game/camera.ts:12-17 | following the same target twice gives the position of following it once |
| Input.InputState.constructor | src/game/input.ts:15-16 | no key held, no press pending |
| Input.InputState.OnKeyDown | src/game/input.ts:21-29 | the key becomes held; a press is recorded only when it was not already held (no auto-repeat presses) |
| Input.InputState.OnKeyUp | src/game/input.ts:30-35 | the key is released; pending presses are untouched |
| Input.InputState.ConsumePress | src/game/input.ts:44-50 | true exactly when a press of the key was pending; that press alone is removed and the held keys are untouched |
| Input.InputState.EndFrame | src/game/input.ts:52-54 | no press is pending afterwards; the held keys are untouched |
| Input.PressIsConsumedOnce | src/game/input.ts:21-50 | a key-down of a key not held is seen by the next `consumePress` only, and the key stays held |
| GameCore.CountTrueExtremes | src/game/Game.ts:248-259 | the flag count is 0 exactly when no flag is set, and the length exactly when all are |
| GameCore.CountTrueUpdate | src/game/Game.ts:256-258 | setting one flag changes the count by exactly that flag's change |
| GameCore.CountAfterClear | src/game/Game.ts:270-271 | clearing one set flag and no other lowers the count by exactly one |
| GameCore.RunVelocity | src/game/Game.ts:198-207 | after steering and the clamp, vx lies within ±PLAYER_MAX_SPEED_X |
| GameCore.FrictionSlowsDown | src/game/Game.ts:201-207 | without an arrow key, friction neither speeds the player up nor reverses it, and below 1 px/s it stops |
| GameCore.SteeringIsMonotone | src/game/Game.ts:198-207 | holding right never lowers vx and holding left never raises it |
| GameCore.FallVelocity | src/game/Game.ts:215 | vy after gravity is the capped value or vy + WORLD_GRAVITY·dt, never above the cap |
| GameCore.RunStepBounds | src/game/Game.ts:207-220 | after a tick, vx is within ±PLAYER_MAX_SPEED_X, vy <= PLAYER_MAX_FALL_SPEED, and a grounded player has vy = 0 |
| GameCore.NoJumpInAir | src/game/Game.ts:209-212 | a press of Space in the air has no effect: the jump needs the ground |
| GameCore.EnemyHasGroundAhead | src/game/Game.ts:312-316 | true exactly when a solid contains the probe point 3 px past the leading bottom corner and 4 px below it |
| GameCore.PatrolDirection | src/game/Game.ts:227-245 | after a tick: x <= patrolMin heads right; otherwise x + w >= patrolMax heads left; otherwise the enemy turns exactly when one, not both, of "stopped at a wall" and "grounded at a ledge" holds; vx is the walking speed unless a wall stopped it |
| GameCore.Game.RoundStartIsValid | src/game/Game.ts:318-324 | a freshly reset round satisfies the invariant, with the player alive |
| GameCore.Game.constructor | src/game/Game.ts:60-67 | a fresh round on the given level, title mode, camera on the player |
| GameCore.Game.StartButtonWhenIdle | src/game/Game.ts:78-80 | the start button shows exactly when no run is in progress (not playing, not paused) |
| GameCore.Game.StartButtonLabel | src/game/Game.ts:82-84 | "Start" exactly on the title screen, "Restart" otherwise |
| GameCore.Game.UpdateCamera | src/game/Game.ts:292-294 | the camera is centred on the player, clamped to the world |
| GameCore.Game.ResetRound | src/game/Game.ts:318-326 | the player is at the spawn, fresh enemies and uncollected coins are built from the spawn tables, score, coin count and clock are zero, the camera is on the player, and the mode is unchanged |
| GameCore.Game.SpawnEnemies | src/game/Game.ts:320 | one new, distinct enemy per spawn, in order, each built from its spawn |
| GameCore.Game.SpawnCoins | src/game/Game.ts:321 | one new, distinct, uncollected coin per spawn, in order, where the spawn put it |
| GameCore.Game.StartRun | src/game/Game.ts:73-76 | a reset round in playing mode |
| GameCore.Game.Steer | src/game/Game.ts:198-207 | the steering loop's vx is `RunVelocity` |
| GameCore.Game.UpdatePlayer | src/game/Game.ts:196-220 | the invincibility timer decays to at least 0; the motion becomes `RunStep`, which jumps only on a pending Space press while grounded; that press is consumed; the bottom before the move is returned; the player stays within bounds |
| GameCore.Game.RunMove | src/game/Game.ts:207-220 | the velocity updates and the move give `RunStep`'s motion, within the speed limits |
| GameCore.Game.UpdateEnemy | src/game/Game.ts:227-245 | one living enemy's motion becomes `PatrolStep` of its old motion |
| GameCore.Game.UpdateEnemies | src/game/Game.ts:222-246 | living enemies take one patrol step; defeated ones are left exactly as they were; no enemy is revived |
| GameCore.Game.CollectCoins | src/game/Game.ts:248-259 | a coin becomes collected exactly when it was already collected or touches the player; each newly collected coin adds SCORE_PER_COIN and one to the count; the counters stay in agreement with the flags |
| GameCore.Game.DamagePlayer | src/game/Game.ts:296-310 | while invincible nothing changes; otherwise one hit point is lost (floor 0), the invincibility window starts, the player is knocked back away from the enemy and up, and zero hit points means game over |
| GameCore.Game.StompEnemy | src/game/Game.ts:270-273 | the enemy is defeated, SCORE_PER_STOMP is added and the player bounces up; hit points are untouched |
| GameCore.Game.ContactEnemy | src/game/Game.ts:262-279 | a stomp happens exactly on overlap with the pre-move bottom at most 7 px below the enemy's top and the player not rising; without overlap nothing changes; otherwise damage; at most one hit point is lost |
| GameCore.Game.ResolveEnemyContacts | src/game/Game.ts:261-280 | each living overlapping enemy is stomped or hurts the player, in list order; only stomp conditions defeat an enemy; the score rises by SCORE_PER_STOMP per defeat; the pass ends in game over exactly at zero hit points |
| GameCore.Game.ContactPass | src/game/Game.ts:261-280 | the loop's outcome is `Pass` over the contacts taken when it starts: the enemy it reports is the only one defeated, the score rises by SCORE_PER_STOMP for it, and zero hit points means game over |
| GameCore.Game.MeetEnemy | src/game/Game.ts:262-279 | one iteration is `Meet` on that enemy's contact: only that enemy's flag can change, and it is cleared exactly when the iteration stomps it |
| GameCore.PassSettles | src/game/Game.ts:261-280 | a whole pass with the flags its stomp leaves is `PassDone`, costs at most one hit point, and its victim was alive |
| GameCore.PassEffect | src/game/Game.ts:262-279 | a pass costs at most one hit point; a hit leaves the invincibility window and the knock-back; without one the timer and vx are kept and vy is the stomp bounce or unchanged; a stomped enemy was alive, touched and landed on by a player not rising |
| GameCore.PassHit | src/game/Game.ts:262-279 | a hit point is lost exactly when the player was not invincible and touched a living enemy other than the stomped one |
| GameCore.PassVictimFirst | src/game/Game.ts:262-279 | a stomped enemy is the first touched living enemy the player landed on; with no stomp and the player not rising, no touched enemy was landed on |
| GameCore.PassUntouched | src/game/Game.ts:261-280 | enemies that are dead or not touched leave the pass state exactly as it was |
| GameCore.PassVictimStays | src/game/Game.ts:270-273 | once an enemy is stomped it stays the pass's only victim: the bounce makes later stomps impossible |
| GameCore.PassFirstTouch | src/game/Game.ts:262-273 | when the first living enemy touched is landed on by a player not rising, that enemy is the one stomped |
| GameCore.PassStops | src/game/Game.ts:276-279 | after zero hit points the loop has stopped: later enemies change nothing |
| GameCore.Game.PassDoneHit | src/game/Game.ts:261-280 | the player's side of a finished pass: at most one hit point lost, exactly when not invincible and touching an enemy still alive; a hit knocks back, otherwise timer and vx are kept and vy is the stomp bounce exactly when an enemy was defeated |
| GameCore.Game.PassDoneStomp | src/game/Game.ts:261-280 | the enemies' side: none revived, at most one defeated, the defeated one touched and landed on, the first touched enemy landed on is defeated, and no touched enemy before the defeated one was landed on |
| GameCore.Game.StepPlaying | src/game/Game.ts:195-290 | keeps the invariant and consumes a pending Space; the outcome is `TickOutcome` from the state the tick starts in (the movement, the touched coins, the contact pass, the end checks); at most one hit point lost and one enemy defeated; coins are never uncollected nor enemies revived; game over exactly at zero hit points or below the death plane, checked first; clear exactly when alive, above the death plane and touching the goal |
| GameCore.Game.AdvanceBodies | src/game/Game.ts:196-246 | the player takes `RunStep` and every living enemy `PatrolStep`; hit points, flags and counters are untouched |
| GameCore.Game.AdvancePlayer | src/game/Game.ts:196-220 | the player half of the movement keeps the invariant and takes `RunStep` |
| GameCore.Game.AdvanceEnemies | src/game/Game.ts:222-246 | the enemy half of the movement keeps the invariant and leaves the player as it was |
| GameCore.Game.ScoreUnchanged | src/game/Game.ts:222-246 | with no flag and no counter changed, the counters still agree with the flags |
| GameCore.Game.ResolveInteractions | src/game/Game.ts:248-289 | coins, then contacts, then the end checks: keeps the invariant, and the outcome is `TickOutcome` from the state after the movement |
| GameCore.Game.TickOutcomeMeans | src/game/Game.ts:248-289 | after a tick the player stands where it moved, exactly the touched coins are newly collected, the contacts are `PassDone`, and the end checks' verdict holds |
| GameCore.Game.TickOutcomeFrom | src/game/Game.ts:248-289 | conversely, a state with those four facts is the tick's outcome |
| GameCore.Game.TickOutcomeBounds | src/game/Game.ts:248-289 | after a tick at most one hit point is lost, no coin is uncollected, no enemy revived and at most one defeated |
| GameCore.Game.CoinsResolvedBy | src/game/Game.ts:248-259 | coins each collected exactly when already collected or touching the player are resolved against the earlier flags |
| GameCore.Game.EndRunIfOver | src/game/Game.ts:277-289 | game over at zero hit points or below the death plane; otherwise clear when touching the goal; otherwise still playing |
| GameCore.Game.Step | src/game/Game.ts:86-111 | keeps the invariant. In title, game over or clear, a pending Space or Enter starts a reset run, and otherwise the mode stays, no entity or counter changes and the clock advances by dt; the camera then follows the player. In paused, only Enter changes the mode, back to playing, and nothing else changes. In playing, Enter pauses and skips the tick: no entity, counter or camera changes; otherwise one tick runs, with the outcome `TickOutcome` from the state it starts in, and the camera follows the player |
| GameCore.Game.StepMode | src/game/Game.ts:89-111 | the mode-dependent half of `step`: the same mode transitions, unchanged entities and camera updates as `Step`, with the clock left as it was |
| GameCore.Game.StepMenu | src/game/Game.ts:89-95 | Space (taken first) or Enter starts a reset run; without a press the game and player are unchanged; the camera follows the player |
| GameCore.Game.StartRunAndFollow | src/game/Game.ts:90-93 | a started run followed by the camera: a reset round in playing mode, camera on the player |
| GameCore.Game.StepPaused | src/game/Game.ts:97-102 | Enter resumes play; nothing else changes |
| GameCore.Game.StepRunning | src/game/Game.ts:104-110 | Enter pauses and touches no entity, counter or camera; otherwise a tick runs with the outcome `TickOutcome` and the camera follows |
| GameCore.Game.PauseRun | src/game/Game.ts:104-107 | pausing keeps the invariant |
| GameCore.Game.PlayAndFollow | src/game/Game.ts:109-110 | a tick with the outcome `TickOutcome`, followed by the camera; the run is then playing, over or cleared |
| ActionScript.TrimStart | tools/web_game_playwright_client.js:94 | removes exactly the longest all-whitespace prefix |
| ActionScript.TrimEnd | tools/web_game_playwright_client.js:94 | removes exactly the longest all-whitespace suffix |
| ActionScript.TrimPadded | tools/web_game_playwright_client.js:94 | trimming any white-space padding around a text that neither starts nor ends with white space gives that text back |
| ActionScript.TrimIdempotent | tools/web_game_playwright_client.js:94 | trimming twice is trimming once |
| ActionScript.IntText | tools/web_game_playwright_client.js:95-98 | the decimal text of an integer matches the integer pattern and reads back as that integer |
| ActionScript.ParseBoundedInteger | tools/web_game_playwright_client.js:93-103 | success gives the value of the trimmed integer text, a safe integer in [min, max]; "must be an integer" exactly when the trimmed text misses the pattern; any other failure is "must be between" |
| ActionScript.ParseBoundedIntegerRoundTrip | tools/web_game_playwright_client.js:93-103 | every safe integer in range is read back from its decimal text, whatever white space pads it |
| ActionScript.ParseBoundedIntegerRejectsNonDigits | tools/web_game_playwright_client.js:94-97 | a trimmed text with a character other than digits and a leading minus is "not an integer", before any range check |
| ActionScript.ParseBoundedIntegerRejectsEmpty | tools/web_game_playwright_client.js:94-97 | the empty text is "must be an integer" |
| ActionScript.ParseBoundedIntegerRejectsDecimal | tools/web_game_playwright_client.js:94-97 | a fraction such as "1.5" is "must be an integer", whatever the range |
| ActionScript.ParseBoundedIntegerRejectsPlus | tools/web_game_playwright_client.js:94-97 | a leading plus sign, as in "+3", is "must be an integer" |
| ActionScript.AsciiLower | tools/web_game_playwright_client.js:106 | lower-cases each character on its own, keeping the length |
| ActionScript.LowerIdempotent | tools/web_game_playwright_client.js:106 | lower-casing twice is lower-casing once |
| ActionScript.ParseBoolean | tools/web_game_playwright_client.js:105-114 | true exactly for trimmed, lower-cased "1" or "true"; false exactly for "0" or "false"; any other text is an error naming the field |
| ActionScript.ParseBooleanIgnoresCase | tools/web_game_playwright_client.js:106 | letter case makes no difference to the result |
| ActionScript.ParseBooleanRoundTrip | tools/web_game_playwright_client.js:105-114 | "true"/"false" and "1"/"0", padded with any white space, read back as the boolean they name |
| ActionScript.ParseActionsPayload | tools/web_game_playwright_client.js:124-132 | succeeds exactly for an array or an object with an array `steps`; otherwise the payload error |
| ActionScript.PayloadFormsAgree | tools/web_game_playwright_client.js:124-132 | a bare array and an object with that array as `steps` give the same steps |
| ActionScript.CheckButtons | tools/web_game_playwright_client.js:162-167 | succeeds exactly when every button is an allowed name, returning the names in order; otherwise the error names the step and a refused button |
| ActionScript.StepFrames | tools/web_game_playwright_client.js:169-171 | 1 when absent; a success lies in [1, MAX_FRAMES_PER_STEP]; errors name `steps[index].frames` |
| ActionScript.StepFramesReadsNumber | tools/web_game_playwright_client.js:169-171 | a frame count in range given as a number is read back |
| ActionScript.StepFramesReadsText | tools/web_game_playwright_client.js:169-171 | a frame count in range given as its decimal text is read back |
| ActionScript.StepFramesReadsSingletonArray | tools/web_game_playwright_client.js:169-171 | a frame count in range given as a one-element array of it is read back, as `String` coerces it |
| ActionScript.StepMouse | tools/web_game_playwright_client.js:173-187 | a coordinate is refused exactly when present and not a finite number |
| ActionScript.NormalizeStepMeaning | tools/web_game_playwright_client.js:152-191 | a normalized step comes from an object (or array), holds exactly the raw buttons, all allowed and in order, and a frame count in range that is 1 when absent; a non-numeric mouse_x is refused |
| ActionScript.NormalizeStepAccepts | tools/web_game_playwright_client.js:152-191 | conversely, an object whose buttons are absent, null or all allowed names, whose frame count reads and whose mouse coordinates are absent or numbers normalizes, keeping those buttons in order, that frame count and those coordinates |
| ActionScript.NormalizeStepErrors | tools/web_game_playwright_client.js:152-191 | a failing step fails with an error naming that step, never a list-level error |
| ActionScript.CollectFrom | tools/web_game_playwright_client.js:152-191 | succeeds exactly when every result does, with their values in order; otherwise gives the first error |
| ActionScript.StepResults | tools/web_game_playwright_client.js:152 | one normalization result per raw step, each with its own index |
| ActionScript.NormalizeSteps | tools/web_game_playwright_client.js:143-197 | the loop with its frame accumulator computes `NormalizedSteps` |
| ActionScript.TotalFramesBounds | tools/web_game_playwright_client.js:189 | a pass over steps of 1 to MAX_FRAMES_PER_STEP frames lasts between one and MAX_FRAMES_PER_STEP frames per step |
| ActionScript.NormalizedStepsMeaning | tools/web_game_playwright_client.js:143-197 | empty or non-array input is the no-steps error and more than MAX_STEPS the too-many error, exactly; otherwise success holds exactly when every step normalizes and the frame budget holds; a success has one step per raw step, in order |
| ActionScript.NormalizedStepsFirstError | tools/web_game_playwright_client.js:152-191 | when a step fails, the error is that of the first failing step and names it |
| ActionScript.ConsoleErrorTracker.constructor | tools/web_game_playwright_client.js:477-480 | nothing seen, nothing buffered |
| ActionScript.ConsoleErrorTracker.Ingest | tools/web_game_playwright_client.js:482-487 | an unseen error is remembered and appended to the buffer; a repeat changes nothing; no error is ever buffered twice |
| ActionScript.ConsoleErrorTracker.Drain | tools/web_game_playwright_client.js:489-493 | returns the buffer in ingest order and empties it; the seen set stays |
| ActionScript.ErrorIsReportedOnce | tools/web_game_playwright_client.js:482-493 | a new error is reported by the next drain, and not by a later one even when it recurs |

## Left out

- Drawing and assets are not part of this model: `src/game/render.ts`,
  `src/game/assets.ts`, `Game.render` and `Game.setAssets`. They are canvas
  and image loading only.
- `Game.renderGameToText` is left out. It is JSON text with rounding to two
  decimals, and nothing in the engine reads it.
- `src/main.ts` and `main.js` are not part of this model: DOM wiring, the
  animation-frame loop with its wall-clock accumulator, and a separate demo.
- `InputState`'s event listeners, `preventDefault` and `destroy` are left out.
  The key handlers are the plain methods `OnKeyDown` / `OnKeyUp`.
- Dash, pulse and air jumps, enemy tiers and stage physics profiles are not
  modelled. The game never reads these fields and constants. `Reset` still
  sets the fields.
- Exact IEEE-754 double arithmetic is not modelled; numbers are reals.
- Level.TrailCoins: the vertical wave `Math.sin(t·π·3)·waveHeight` is a
  function parameter `wave`, because the model has no sine. The y of each coin
  is stated only through it.
- Level.CreateStageLevels: returns each stage's header (id, number, size,
  death plane, spawn, goal). The solid, coin, enemy and decoration tables,
  titles, themes and physics profiles are not modelled.
- The message texts of the client's errors are not modelled. `ActionError`
  names the reason and the field or step; `FieldName` stands for the field
  text.
- ActionScript.AsciiLower: lower-cases A to Z only. No other character
  lower-cases to a letter of "true" or "false", so `parseBoolean` behaves the
  same.
- ActionScript.StepFrames: `String(frames)` of a non-integral number, or of an
  integer of 10^21 or more, is modelled as "no integer text". JavaScript
  writes such numbers with a fraction or an exponent, which the integer
  pattern refuses either way.
- ActionScript.ParseBoundedInteger: `Number.parseInt` is exact here. Integer
  texts beyond 2^53 that round to a safe double are not modelled; they are
  outside the safe range either way.
- JSON number literals too large for a double are `JInfinite`, and the mouse
  check refuses them as non-finite.
- ActionScript.ConsoleErrorTracker.Ingest: the `JSON.stringify` key is the
  error record itself, so two errors share a key exactly when kind and text
  agree.
- `readActionsFile` (file reading, the byte limit), `parseClick`, `parseArgs`,
  `validateTargetUrl`, Playwright and screenshot capture are not part of this
  model: file system, URL parsing and browser control.
- GameCore.Game.StepPlaying: the enemies' patrol motion during a tick is
  stated one level down, by `AdvanceBodies` (each living enemy takes
  `PatrolStep`, a defeated one stays put), and is not carried up through the
  tick's callers; `TickOutcome` covers the player's motion, the coins, the
  contacts and the end checks.
- GameCore.Game.PlayAndFollow: does not state the enemies' patrol motion
  during the tick, as for `StepPlaying`.
- GameCore.Game.StepRunning: does not state the enemies' patrol motion during
  the tick, as for `StepPlaying`.
- GameCore.Game.StepMode: does not state the enemies' patrol motion during a
  playing tick, as for `StepPlaying`.
- GameCore.Game.Step: does not state the enemies' patrol motion during a
  playing tick, as for `StepPlaying`.
- GameCore.Game.ResolveInteractions: enemy positions are kept by its
  `modifies` frame rather than by an `ensures`.
