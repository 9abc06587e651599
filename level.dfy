/**
 * Level data as the engine consumes it, the two coin-layout helpers used by
 * the stage builders, and the list of stages.
 */
module Level {
  import opened Types

  datatype CoinSpawn = CoinSpawn(x: real, y: real, r: real)

  /** Enemy archetypes named by a spawn; the engine never reads them. */
  datatype Tier = Scout | Runner | Hopper | Guard | Ace

  /** An enemy spawn; the optional fields fall back to defaults in the
      enemy's constructor. */
  datatype EnemySpawn = EnemySpawn(
    x: real,
    y: real,
    patrolMin: Option<real>,
    patrolMax: Option<real>,
    direction: Option<Facing>,
    tier: Option<Tier>)

  /** The part of a level the simulation reads: world size, death plane,
      spawn point, collision rectangles, spawn tables and the goal. */
  datatype LevelData = LevelData(
    width: real,
    height: real,
    deathY: real,
    spawn: Vec2,
    solids: seq<Rect>,
    coins: seq<CoinSpawn>,
    enemies: seq<EnemySpawn>,
    goal: Rect)

  const TOTAL_STAGES: nat := 5

  /** The scalar header of one built-in stage. */
  datatype StageInfo = StageInfo(
    id: string,
    stageNumber: nat,
    width: real,
    height: real,
    deathY: real,
    spawn: Vec2,
    goal: Rect)

  function CreateStage1(): StageInfo {
    StageInfo("stage1", 1, 3600.0, 540.0, 760.0, Vec2(80.0, 440.0), Rect(3500.0, 430.0, 44.0, 70.0))
  }

  function CreateStage2(): StageInfo {
    StageInfo("stage2", 2, 3700.0, 560.0, 780.0, Vec2(70.0, 452.0), Rect(3600.0, 430.0, 44.0, 70.0))
  }

  function CreateStage3(): StageInfo {
    StageInfo("stage3", 3, 1860.0, 1620.0, 1820.0, Vec2(80.0, 1412.0), Rect(1660.0, 86.0, 44.0, 70.0))
  }

  function CreateStage4(): StageInfo {
    StageInfo("stage4", 4, 4360.0, 860.0, 1030.0, Vec2(80.0, 682.0), Rect(4210.0, 290.0, 44.0, 70.0))
  }

  function CreateStage5(): StageInfo {
    StageInfo("stage5", 5, 3340.0, 620.0, 840.0, Vec2(80.0, 512.0), Rect(3200.0, 490.0, 44.0, 70.0))
  }

  /** The built-in stages, in play order. */
  function CreateStageLevels(): (levels: seq<StageInfo>)
    ensures |levels| == TOTAL_STAGES
    ensures forall i :: 0 <= i < |levels| ==> levels[i].stageNumber == i + 1
  {
    [CreateStage1(), CreateStage2(), CreateStage3(), CreateStage4(), CreateStage5()]
  }

  /** Every built-in stage has its death plane below the bottom of the world
      and its spawn point and goal inside the world's width. */
  lemma StagesAreWellFormed()
    ensures forall s :: s in CreateStageLevels() ==>
      && s.deathY > s.height
      && 0.0 <= s.spawn.x < s.width
      && 0.0 <= s.goal.x && s.goal.x + s.goal.w <= s.width
  {
  }

  /** `coinsAbovePlatforms`: two coins per platform, at 30% and 70% of its
      width, `offsetY` above its top. */
  method CoinsAbovePlatforms(platforms: seq<Rect>, offsetY: real, radius: real) returns (coins: seq<CoinSpawn>)
    ensures |coins| == 2 * |platforms|
    ensures forall i :: 0 <= i < |platforms| ==>
      && coins[2 * i] == CoinSpawn(platforms[i].x + platforms[i].w * 0.3, platforms[i].y - offsetY, radius)
      && coins[2 * i + 1] == CoinSpawn(platforms[i].x + platforms[i].w * 0.7, platforms[i].y - offsetY, radius)
    ensures forall k :: 0 <= k < |coins| && platforms[k / 2].w >= 0.0 ==>
      platforms[k / 2].x <= coins[k].x <= platforms[k / 2].x + platforms[k / 2].w
  {
    coins := [];
    for i := 0 to |platforms|
      invariant |coins| == 2 * i
      invariant forall j :: 0 <= j < i ==>
        && coins[2 * j] == CoinSpawn(platforms[j].x + platforms[j].w * 0.3, platforms[j].y - offsetY, radius)
        && coins[2 * j + 1] == CoinSpawn(platforms[j].x + platforms[j].w * 0.7, platforms[j].y - offsetY, radius)
    {
      var platform := platforms[i];
      coins := coins + [CoinSpawn(platform.x + platform.w * 0.3, platform.y - offsetY, radius)];
      coins := coins + [CoinSpawn(platform.x + platform.w * 0.7, platform.y - offsetY, radius)];
    }
    forall k | 0 <= k < |coins| && platforms[k / 2].w >= 0.0
      ensures platforms[k / 2].x <= coins[k].x <= platforms[k / 2].x + platforms[k / 2].w
    {
      var i := k / 2;
      assert k == 2 * i || k == 2 * i + 1;
    }
  }

  /** The interpolation parameter of coin `index` in a trail of `count`. */
  function TrailT(index: int, count: int): real {
    if count <= 1 then 0.0 else index as real / (count - 1) as real
  }

  /** The x of coin `index` in a trail of `count` from `startX` to `endX`. */
  function TrailX(startX: real, endX: real, index: int, count: int): real {
    startX + (endX - startX) * TrailT(index, count)
  }

  /** `trailCoins`: `count` coins spread evenly from `startX` to `endX`, each of
      radius 8. `wave(t)` stands for the vertical wave offset at parameter t. */
  method TrailCoins(startX: real, endX: real, baseY: real, count: int, wave: real -> real)
    returns (coins: seq<CoinSpawn>)
    ensures |coins| == if count < 0 then 0 else count
    ensures forall i :: 0 <= i < |coins| ==>
      coins[i] == CoinSpawn(TrailX(startX, endX, i, count), baseY + wave(TrailT(i, count)), 8.0)
    ensures count == 1 ==> coins[0].x == startX
    ensures count >= 2 ==> coins[0].x == startX && coins[count - 1].x == endX
    ensures endX >= startX ==> forall i, j :: 0 <= i <= j < |coins| ==> coins[i].x <= coins[j].x
    ensures endX >= startX ==> forall i :: 0 <= i < |coins| ==> startX <= coins[i].x <= endX
  {
    coins := [];
    var span := endX - startX;
    var index := 0;
    while index < count
      invariant 0 <= index
      invariant index <= (if count < 0 then 0 else count)
      invariant |coins| == index
      invariant forall i :: 0 <= i < index ==>
        coins[i] == CoinSpawn(TrailX(startX, endX, i, count), baseY + wave(TrailT(i, count)), 8.0)
    {
      var t := if count <= 1 then 0.0 else index as real / (count - 1) as real;
      assert t == TrailT(index, count);
      coins := coins + [CoinSpawn(startX + span * t, baseY + wave(t), 8.0)];
      index := index + 1;
    }
    TrailEnds(startX, endX, count);
    if endX >= startX {
      forall i, j | 0 <= i <= j < |coins|
        ensures coins[i].x <= coins[j].x
      {
        TrailXMonotone(startX, endX, i, j, count);
      }
      forall i | 0 <= i < |coins|
        ensures startX <= coins[i].x <= endX
      {
        TrailXWithinSpan(startX, endX, i, count);
      }
    }
  }

  lemma TrailEnds(startX: real, endX: real, count: int)
    ensures TrailX(startX, endX, 0, count) == startX
    ensures count >= 2 ==> TrailX(startX, endX, count - 1, count) == endX
  {
    if count >= 2 {
      assert TrailT(count - 1, count) == 1.0;
    }
  }

  lemma TrailTMonotone(i: int, j: int, count: int)
    requires 0 <= i <= j
    ensures TrailT(i, count) <= TrailT(j, count)
  {
    if count > 1 {
      var d := (count - 1) as real;
      assert TrailT(j, count) - TrailT(i, count) == (j - i) as real / d;
    }
  }

  lemma MulMonotone(c: real, a: real, b: real)
    requires c >= 0.0 && a <= b
    ensures c * a <= c * b
  {
    assert c * b - c * a == c * (b - a);
  }

  /** Along a left-to-right trail, coin x never decreases. */
  lemma TrailXMonotone(startX: real, endX: real, i: int, j: int, count: int)
    requires endX >= startX && 0 <= i <= j
    ensures TrailX(startX, endX, i, count) <= TrailX(startX, endX, j, count)
  {
    TrailTMonotone(i, j, count);
    MulMonotone(endX - startX, TrailT(i, count), TrailT(j, count));
  }

  /** Every coin of a left-to-right trail lies between its two ends. */
  lemma TrailXWithinSpan(startX: real, endX: real, i: int, count: int)
    requires endX >= startX && 0 <= i && (count <= 1 || i < count)
    ensures startX <= TrailX(startX, endX, i, count) <= endX
  {
    TrailXMonotone(startX, endX, 0, i, count);
    if count > 1 {
      TrailXMonotone(startX, endX, i, count - 1, count);
      TrailEnds(startX, endX, count);
    } else {
      assert TrailT(i, count) == 0.0;
    }
  }
}
