// The level sequencer that the game itself does not construct: it notices a
// cleared formation, awards the level bonus and calls a bonus ship, waits
// two seconds and sets up the next of twenty levels with faster aliens.
module Levels {
  import opened GameConstants
  import opened RandomSource
  import opened AlienGrids
  import opened BuildingManagers
  import opened UfoSystems
  import opened Scoring

  /** The difficulty settings of one level. */
  datatype LevelConfig = LevelConfig(
    level: int, alienSpeed: real, alienBombFrequency: real, ufoSpawnChance: real, scoreMultiplier: real)

  function MinReal(a: real, b: real): (m: real)
    ensures m <= a && m <= b && (m == a || m == b)
  {
    if a < b then a else b
  }

  /** The settings of level `level`: aliens 20% faster per level, bomb and
      ship chances rising by 2 and 5 points per level up to 50% and 80%,
      scores 10% higher per level. */
  function ConfigFor(level: int): (c: LevelConfig)
    ensures c.level == level
    ensures c.alienBombFrequency <= 0.5 && c.ufoSpawnChance <= 0.8
    ensures level >= 1 ==>
      c.alienSpeed >= ALIEN_BASE_SPEED && 0.1 <= c.alienBombFrequency && 0.3 <= c.ufoSpawnChance &&
      c.scoreMultiplier >= 1.0
    ensures level == 1 ==> c == LevelConfig(1, ALIEN_BASE_SPEED, 0.1, 0.3, 1.0)
  {
    var steps := (level - 1) as real;
    LevelConfig(
      level,
      ALIEN_BASE_SPEED + steps * 0.2,
      MinReal(0.1 + steps * 0.02, 0.5),
      MinReal(0.3 + steps * 0.05, 0.8),
      1.0 + steps * 0.1)
  }

  /** Every setting is non-decreasing in the level. */
  lemma {:induction false} ConfigMonotone(l1: int, l2: int)
    requires l1 <= l2
    ensures ConfigFor(l1).alienSpeed <= ConfigFor(l2).alienSpeed
    ensures ConfigFor(l1).alienBombFrequency <= ConfigFor(l2).alienBombFrequency
    ensures ConfigFor(l1).ufoSpawnChance <= ConfigFor(l2).ufoSpawnChance
    ensures ConfigFor(l1).scoreMultiplier <= ConfigFor(l2).scoreMultiplier
  {
    var s1 := (l1 - 1) as real;
    var s2 := (l2 - 1) as real;
    assert s1 * 0.02 <= s2 * 0.02 && s1 * 0.05 <= s2 * 0.05;
  }

  /** The bomb chance reaches its cap at level 21 and the ship chance at level 11. */
  lemma {:induction false} ConfigCaps(level: int)
    ensures ConfigFor(level).alienBombFrequency == 0.5 <==> level >= 21
    ensures ConfigFor(level).ufoSpawnChance == 0.8 <==> level >= 11
  {
  }

  /** The formation's step interval for a level: 1000 / (1 + speed). */
  function MoveIntervalFor(level: int): (t: real)
    requires level >= 1
    ensures 0.0 < t <= 500.0
  {
    var speed := ConfigFor(level).alienSpeed;
    1000.0 / (1.0 + speed)
  }

  /** Later levels step strictly faster. */
  lemma {:induction false} MoveIntervalShrinks(l1: int, l2: int)
    requires 1 <= l1 < l2
    ensures MoveIntervalFor(l2) < MoveIntervalFor(l1)
  {
    var a := 1.0 + ConfigFor(l1).alienSpeed;
    var b := 1.0 + ConfigFor(l2).alienSpeed;
    DivDecreasing(1000.0, a, b);
  }

  /** Dividing by a larger positive number gives less. */
  lemma {:induction false} DivDecreasing(c: real, a: real, b: real)
    requires c > 0.0 && 0.0 < a < b
    ensures c / b < c / a
  {
    var x := c / a;
    var y := c / b;
    assert x * a == c && y * b == c;
    assert x > 0.0;
    assert (x - y) * b == x * (b - a);
    assert x * (b - a) > 0.0;
  }

  /** How far through the levels: the level, capped at the last, out of the last. */
  datatype Progress = Progress(current: int, total: int, percentage: real)

  function ProgressAt(level: int): (p: Progress)
    ensures p.total == MAX_LEVELS && p.current <= MAX_LEVELS
    ensures p.current == (if level < MAX_LEVELS then level else MAX_LEVELS)
    ensures p.percentage * MAX_LEVELS as real == p.current as real * 100.0
    ensures 1 <= level ==> 0.0 < p.percentage <= 100.0
  {
    var current := if level < MAX_LEVELS then level else MAX_LEVELS;
    Progress(current, MAX_LEVELS, current as real / MAX_LEVELS as real * 100.0)
  }

  /** Whether the level is finished and how long until the next one starts. */
  datatype CompleteProgress = CompleteProgress(completed: bool, timeRemaining: real)

  function CompleteProgressAt(completed: bool, elapsed: real, delay: real): (p: CompleteProgress)
    ensures p.completed == completed && p.timeRemaining >= 0.0
    ensures p.timeRemaining == 0.0 <==> elapsed >= delay
    ensures elapsed <= delay ==> p.timeRemaining + elapsed == delay
  {
    CompleteProgress(completed, if delay - elapsed > 0.0 then delay - elapsed else 0.0)
  }

  class LevelManager {
    var currentLevel: int
    const maxLevel: int
    var levelCompleted: bool
    var levelCompleteTime: real
    const levelCompleteDelay: real
    const alienGrid: AlienGrid
    const buildingManager: BuildingManager
    const ufoSystem: UfoSystem
    const scoringSystem: ScoringSystem

    /** The systems it drives are consistent and the building manager owns
        none of the other objects. */
    ghost predicate Valid()
      reads this, alienGrid, buildingManager, buildingManager.Repr, ufoSystem, ufoSystem.Footprint(), scoringSystem
    {
      maxLevel == MAX_LEVELS && levelCompleteDelay == 2000.0 &&
      alienGrid.Valid() && buildingManager.Valid() && ufoSystem.Valid() && scoringSystem.Valid() &&
      this !in buildingManager.Repr && alienGrid !in buildingManager.Repr &&
      ufoSystem !in buildingManager.Repr && scoringSystem !in buildingManager.Repr &&
      ufoSystem.Footprint() !! buildingManager.Repr
    }

    constructor (alienGrid: AlienGrid, buildingManager: BuildingManager, ufoSystem: UfoSystem, scoringSystem: ScoringSystem)
      requires alienGrid.Valid() && buildingManager.Valid() && ufoSystem.Valid() && scoringSystem.Valid()
      requires alienGrid !in buildingManager.Repr && ufoSystem !in buildingManager.Repr
      requires scoringSystem !in buildingManager.Repr && ufoSystem.Footprint() !! buildingManager.Repr
      ensures Valid() && currentLevel == 1 && !levelCompleted && levelCompleteTime == 0.0
      ensures this.alienGrid == alienGrid && this.buildingManager == buildingManager
      ensures this.ufoSystem == ufoSystem && this.scoringSystem == scoringSystem
    {
      currentLevel := 1;
      maxLevel := MAX_LEVELS;
      levelCompleted := false;
      levelCompleteTime := 0.0;
      levelCompleteDelay := 2000.0;
      this.alienGrid := alienGrid;
      this.buildingManager := buildingManager;
      this.ufoSystem := ufoSystem;
      this.scoringSystem := scoringSystem;
    }

    /** Won once the level is past the last one. */
    predicate IsVictory()
      reads this
    {
      currentLevel > maxLevel
    }

    function GetLevelConfig(): LevelConfig
      reads this
    {
      ConfigFor(currentLevel)
    }

    /** The level is complete when no alien is active. */
    method CheckLevelCompletion() returns (complete: bool)
      requires alienGrid.Valid()
      ensures complete <==> alienGrid.Cleared()
    {
      var count := alienGrid.GetActiveAlienCount();
      complete := count == 0;
    }

    /** Marks the level finished, awards 1000 points per level through the
        combo rules and calls a bonus ship. */
    method CompleteLevel(now: int, rng: Stream) returns (rng': Stream)
      requires Valid()
      modifies this`levelCompleted, this`levelCompleteTime, scoringSystem, ufoSystem`ufo, ufoSystem`nextSpawnTime
      ensures Valid() && levelCompleted && levelCompleteTime == 0.0 && currentLevel == old(currentLevel)
      ensures scoringSystem.comboHalves == NextHalves(old(scoringSystem.comboHalves), now - old(scoringSystem.lastHitTime))
      ensures scoringSystem.score == old(scoringSystem.score) + Award(LEVEL_BONUS * currentLevel, scoringSystem.comboHalves)
      ensures scoringSystem.lastHitTime == now
      ensures scoringSystem.scoreHistory == old(scoringSystem.scoreHistory) +
        [ScoreEvent(Award(LEVEL_BONUS * currentLevel, scoringSystem.comboHalves),
                    "level-complete" + " (" + MultiplierText(scoringSystem.comboHalves) + "x)", now)]
      ensures scoringSystem.highScore ==
        if scoringSystem.score > old(scoringSystem.highScore) then scoringSystem.score else old(scoringSystem.highScore)
      ensures !old(ufoSystem.IsActive()) ==> ufoSystem.IsActive() && ufoSystem.ufo.value.isBonus
      ensures old(ufoSystem.IsActive()) ==> ufoSystem.ufo == old(ufoSystem.ufo)
    {
      levelCompleted := true;
      levelCompleteTime := 0.0;
      var levelBonus := LEVEL_BONUS * currentLevel;
      scoringSystem.AddScore(levelBonus, "level-complete", now);
      rng' := ufoSystem.SpawnBonusUFO(rng);
    }

    /** Rebuilds the formation with this level's step interval, the row of
        buildings and the ship spawner. */
    method SetupLevel(rng: Stream) returns (rng': Stream)
      requires Valid() && currentLevel >= 1
      modifies alienGrid, buildingManager`buildings, buildingManager`Repr
      modifies ufoSystem`ufo, ufoSystem`gameTime, ufoSystem`nextSpawnTime
      ensures Valid()
      ensures alienGrid.StartingLayout() && alienGrid.movementDirection == 1 && alienGrid.lastMoveTime == 0
      ensures alienGrid.moveInterval == MoveIntervalFor(currentLevel)
      ensures buildingManager.StartingRow() && fresh(buildingManager.Repr - old(buildingManager.Repr))
      ensures ufoSystem.ufo.None? && ufoSystem.gameTime == 0.0 && rng' == rng.(next := rng.next + 1)
    {
      alienGrid.Reset();
      var levelConfig := GetLevelConfig();
      alienGrid.SetMoveInterval(1000.0 / (1.0 + levelConfig.alienSpeed));
      buildingManager.Reset();
      rng' := ufoSystem.Reset(rng);
    }

    /** Moves on to the next level unless the game is already won. */
    method NextLevel(rng: Stream) returns (rng': Stream)
      requires Valid() && currentLevel >= 1
      modifies this`currentLevel, this`levelCompleted, this`levelCompleteTime
      modifies alienGrid, buildingManager`buildings, buildingManager`Repr
      modifies ufoSystem`ufo, ufoSystem`gameTime, ufoSystem`nextSpawnTime
      ensures Valid() && currentLevel >= 1
      ensures old(IsVictory()) ==>
        currentLevel == old(currentLevel) && levelCompleted == old(levelCompleted) &&
        levelCompleteTime == old(levelCompleteTime) && rng' == rng && unchanged(alienGrid) && unchanged(ufoSystem) &&
        buildingManager.buildings == old(buildingManager.buildings) && buildingManager.Repr == old(buildingManager.Repr)
      ensures !old(IsVictory()) ==>
        currentLevel == old(currentLevel) + 1 && !levelCompleted && levelCompleteTime == 0.0 &&
        alienGrid.StartingLayout() && alienGrid.moveInterval == MoveIntervalFor(currentLevel) &&
        buildingManager.StartingRow() && ufoSystem.ufo.None? && rng' == rng.(next := rng.next + 1)
    {
      rng' := rng;
      if IsVictory() {
        return;
      }
      currentLevel := currentLevel + 1;
      levelCompleted := false;
      levelCompleteTime := 0.0;
      rng' := SetupLevel(rng);
    }

    /** Back to level 1. */
    method Reset(rng: Stream) returns (rng': Stream)
      requires Valid()
      modifies this`currentLevel, this`levelCompleted, this`levelCompleteTime
      modifies alienGrid, buildingManager`buildings, buildingManager`Repr
      modifies ufoSystem`ufo, ufoSystem`gameTime, ufoSystem`nextSpawnTime
      ensures Valid() && currentLevel == 1 && !levelCompleted && levelCompleteTime == 0.0
      ensures alienGrid.StartingLayout() && alienGrid.moveInterval == MoveIntervalFor(1)
      ensures buildingManager.StartingRow() && ufoSystem.ufo.None?
    {
      currentLevel := 1;
      levelCompleted := false;
      levelCompleteTime := 0.0;
      rng' := SetupLevel(rng);
    }

    /** One frame: a cleared formation completes the level (once); a
        completed level counts the frame's time and, two seconds after
        completion, the next level starts. */
    method Update(deltaTime: real, now: int, rng: Stream) returns (rng': Stream)
      requires Valid() && currentLevel >= 1
      modifies this`currentLevel, this`levelCompleted, this`levelCompleteTime, scoringSystem
      modifies alienGrid, buildingManager`buildings, buildingManager`Repr
      modifies ufoSystem`ufo, ufoSystem`gameTime, ufoSystem`nextSpawnTime
      ensures Valid() && currentLevel >= 1
      ensures var completes := !old(levelCompleted) && old(alienGrid.Cleared());
        var t := (if completes then 0.0 else old(levelCompleteTime)) + deltaTime;
        (completes ==> scoringSystem.score == old(scoringSystem.score) + Award(LEVEL_BONUS * old(currentLevel), scoringSystem.comboHalves)) &&
        (!completes ==> scoringSystem.score == old(scoringSystem.score)) &&
        (completes && !old(ufoSystem.IsActive()) && t < 2000.0 ==> ufoSystem.ufo.Some? && ufoSystem.ufo.value.isBonus) &&
        (!old(levelCompleted) && !completes ==>
          !levelCompleted && levelCompleteTime == old(levelCompleteTime) && currentLevel == old(currentLevel)) &&
        ((old(levelCompleted) || completes) && (t < 2000.0 || old(currentLevel) > MAX_LEVELS) ==>
          levelCompleted && levelCompleteTime == t && currentLevel == old(currentLevel)) &&
        ((old(levelCompleted) || completes) && t >= 2000.0 && old(currentLevel) <= MAX_LEVELS ==>
          !levelCompleted && levelCompleteTime == 0.0 && currentLevel == old(currentLevel) + 1 &&
          alienGrid.StartingLayout() && buildingManager.StartingRow() && ufoSystem.ufo.None?)
      ensures var completes := !old(levelCompleted) && old(alienGrid.Cleared());
        var t := (if completes then 0.0 else old(levelCompleteTime)) + deltaTime;
        !((old(levelCompleted) || completes) && t >= 2000.0 && old(currentLevel) <= MAX_LEVELS) ==>
          unchanged(alienGrid) && buildingManager.buildings == old(buildingManager.buildings) &&
          buildingManager.Repr == old(buildingManager.Repr) && ufoSystem.gameTime == old(ufoSystem.gameTime) &&
          (!completes ==> ufoSystem.ufo == old(ufoSystem.ufo))
      ensures var completes := !old(levelCompleted) && old(alienGrid.Cleared());
        (completes ==>
          scoringSystem.comboHalves == NextHalves(old(scoringSystem.comboHalves), now - old(scoringSystem.lastHitTime)) &&
          scoringSystem.lastHitTime == now &&
          scoringSystem.scoreHistory == old(scoringSystem.scoreHistory) +
            [ScoreEvent(Award(LEVEL_BONUS * old(currentLevel), scoringSystem.comboHalves),
                        "level-complete" + " (" + MultiplierText(scoringSystem.comboHalves) + "x)", now)] &&
          scoringSystem.highScore ==
            if scoringSystem.score > old(scoringSystem.highScore) then scoringSystem.score else old(scoringSystem.highScore)) &&
        (!completes ==> unchanged(scoringSystem))
    {
      rng' := rng;
      if !levelCompleted {
        var complete := CheckLevelCompletion();
        if complete {
          rng' := CompleteLevel(now, rng');
        }
      }
      if levelCompleted {
        levelCompleteTime := levelCompleteTime + deltaTime;
        if levelCompleteTime >= levelCompleteDelay {
          rng' := NextLevel(rng');
        }
      }
    }

    function GetProgress(): Progress
      reads this
    {
      ProgressAt(currentLevel)
    }

    function GetLevelCompleteProgress(): CompleteProgress
      reads this
    {
      CompleteProgressAt(levelCompleted, levelCompleteTime, levelCompleteDelay)
    }
  }
}
