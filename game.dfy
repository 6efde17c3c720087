// The top of the game: the state machine that moves between the menu,
// play, pause, level-complete, game-over and victory, and the frame that
// drives every subsystem and applies the effects of collisions.  The two
// classes refer to each other, as the manager's entry actions call back
// into the game.
module Games {
  import opened GameTypes
  import opened GameConstants
  import opened GameObjects
  import opened RandomSource
  import opened SeqUtil
  import opened Players
  import opened PlayerLives
  import opened Aliens
  import opened AlienGrids
  import opened Buildings
  import BuildingManagers
  import opened Ufos
  import opened UfoSystems
  import opened Collisions
  import opened Scoring
  import opened Bullets
  import opened BulletPools
  import opened Bombs
  import opened BombPools
  import opened BombSystems
  import Explosions
  import CollisionEffects

  // ---------------------------------------------------------------------
  // The transition table

  /** The transition table: the states each state may move to.  A request
      outside it is ignored. */
  predicate CanTransition(from: GameState, to: GameState) {
    match from
    case Menu => to == Playing
    case Playing => to == Paused || to == GameOver || to == LevelComplete || to == Victory
    case Paused => to == Playing || to == Menu
    case LevelComplete => to == Playing || to == Victory
    case GameOver => to == Menu
    case Victory => to == Menu
  }

  /** No state moves to itself; pause, game-over and level-complete are
      entered only from play; the menu is entered only from pause, game-over
      or victory and left only for play. */
  lemma {:induction false} TransitionShape(from: GameState, to: GameState)
    ensures !CanTransition(from, from)
    ensures CanTransition(from, to) && (to == Paused || to == GameOver || to == LevelComplete) ==> from == Playing
    ensures CanTransition(from, to) && to == Menu ==> from == Paused || from == GameOver || from == Victory
    ensures CanTransition(Menu, to) <==> to == Playing
  {
  }

  /** A run of states each of which the table lets follow the previous one. */
  predicate Path(p: seq<GameState>) {
    forall i :: 0 <= i < |p| - 1 ==> CanTransition(p[i], p[i + 1])
  }

  /** From every state the menu is at most two accepted requests away. */
  lemma {:induction false} MenuReachable(s: GameState) returns (p: seq<GameState>)
    ensures Path(p) && 1 <= |p| <= 3 && p[0] == s && p[|p| - 1] == Menu
  {
    match s
    case Menu => p := [Menu];
    case Playing => p := [Playing, Paused, Menu];
    case Paused => p := [Paused, Menu];
    case LevelComplete => p := [LevelComplete, Victory, Menu];
    case GameOver => p := [GameOver, Menu];
    case Victory => p := [Victory, Menu];
  }

  /** Every state can be reached from the menu in at most three accepted requests. */
  lemma {:induction false} ReachableFromMenu(s: GameState) returns (p: seq<GameState>)
    ensures Path(p) && 1 <= |p| <= 4 && p[0] == Menu && p[|p| - 1] == s
  {
    match s
    case Menu => p := [Menu];
    case Playing => p := [Menu, Playing];
    case Paused => p := [Menu, Playing, Paused];
    case LevelComplete => p := [Menu, Playing, LevelComplete];
    case GameOver => p := [Menu, Playing, GameOver];
    case Victory => p := [Menu, Playing, Victory];
  }

  // ---------------------------------------------------------------------
  // Menu keys

  /** The state the Enter key asks for: play from the menu, the menu from
      game-over or victory; elsewhere it asks for nothing. */
  function AfterEnter(s: GameState): (t: GameState)
    ensures t != s ==> CanTransition(s, t)
    ensures t != s <==> s == Menu || s == GameOver || s == Victory
  {
    if s == Menu then Playing else if s == GameOver || s == Victory then Menu else s
  }

  /** The state the Escape key asks for: pause from play, play from pause;
      elsewhere it asks for nothing. */
  function AfterEscape(s: GameState): (t: GameState)
    ensures t != s ==> CanTransition(s, t)
    ensures t != s <==> s == Playing || s == Paused
  {
    if s == Playing then Paused else if s == Paused then Playing else s
  }

  /** The state after one frame's keys, Enter handled before Escape. */
  function MenuInput(s: GameState, enter: bool, escape: bool): GameState {
    var afterEnter := if enter then AfterEnter(s) else s;
    if escape then AfterEscape(afterEnter) else afterEnter
  }

  /** Escape pressed twice brings play or pause back; Enter and Escape in the
      same frame start a game already paused. */
  lemma {:induction false} EscapeToggles(s: GameState)
    ensures MenuInput(MenuInput(s, false, true), false, true) == s
    ensures MenuInput(Menu, true, true) == Paused
    ensures s != Paused ==> MenuInput(s, true, false) != Paused
  {
  }

  // ---------------------------------------------------------------------
  // Difficulty and frame timing

  /** A factor that starts at 1 on level 1 and grows by `step` per level. */
  function LevelScaling(level: int, step: real): (m: real)
    ensures level == 1 ==> m == 1.0
  {
    1.0 + (level - 1) as real * step
  }

  /** The factors never fall below 1 and grow with the level. */
  lemma {:induction false} ScalingGrows(l1: int, l2: int, step: real)
    requires 1 <= l1 <= l2 && step >= 0.0
    ensures 1.0 <= LevelScaling(l1, step) <= LevelScaling(l2, step)
  {
    var d1 := (l1 - 1) as real;
    var d2 := (l2 - 1) as real;
    assert 0.0 <= d1 <= d2;
    assert d1 * step <= d2 * step by {
      assert d2 * step - d1 * step == (d2 - d1) * step;
    }
    assert 0.0 <= d1 * step;
  }

  /** On every level the speed factor is the smallest and the UFO factor the largest. */
  lemma {:induction false} ScalingOrder(level: int)
    requires level >= 1
    ensures LevelScaling(level, 0.1) <= LevelScaling(level, 0.15) <= LevelScaling(level, 0.2)
  {
  }

  /** The frame's time step: the gap to the previous frame's timestamp, or
      16.67 on the first frame (a previous timestamp of 0), never more than 100. */
  function FrameDelta(lastTime: real, timestamp: real): (d: real)
    ensures d <= 100.0
    ensures lastTime == 0.0 ==> d == 16.67
    ensures lastTime != 0.0 && timestamp - lastTime <= 100.0 ==> d == timestamp - lastTime
    ensures lastTime != 0.0 && lastTime <= timestamp ==> 0.0 <= d
  {
    var deltaTime := if lastTime != 0.0 then timestamp - lastTime else 16.67;
    if deltaTime < 100.0 then deltaTime else 100.0
  }

  // ---------------------------------------------------------------------
  // Views of state used by the contracts

  /** The state manager's own fields. */
  datatype Machine = Machine(state: GameState, previous: GameState, timer: real, level: int, destroyed: int)

  /** The game state that entering a state may change outside the manager:
      the displayed level, the score, the cannon's lives and the bombs. */
  datatype Held = Held(level: int, score: int, highScore: int, lives: int, alive: bool, respawning: bool,
                       droppers: seq<BombDropper>, lastBombCheck: int, bombs: seq<Bomb>, spareBombs: seq<Bomb>,
                       bombRepr: set<object>)

  /** The game state after a level-complete on `level`: the level bonus is
      added to the score (and the high score follows it up), and the bombs in
      flight are cleared back into their pool. */
  function AfterLevelBonus(h: Held, level: int): (h': Held)
    ensures h'.score == h.score + LEVEL_BONUS * level && h'.highScore >= h'.score && h'.highScore >= h.highScore
    ensures h'.bombs == [] && multiset(h'.spareBombs) == multiset(h.spareBombs) + multiset(h.bombs)
    ensures h'.level == h.level && h'.lives == h.lives && h'.alive == h.alive && h'.respawning == h.respawning
  {
    ReverseMultiset(h.bombs);
    var total := h.score + LEVEL_BONUS * level;
    h.(score := total, highScore := if total > h.highScore then total else h.highScore,
       droppers := [], lastBombCheck := 0, bombs := [], spareBombs := h.spareBombs + Reverse(h.bombs))
  }

  /** The level-complete entry as the original computes it: the bonus is
      added to the score that `Game.GetScoreAsWritten` reads, which is always
      0, so the new score is the bonus alone; the bombs are cleared as in
      `AfterLevelBonus`. */
  function AfterLevelBonusAsWritten(h: Held, level: int): (h': Held)
    ensures h'.score == LEVEL_BONUS * level && h'.highScore >= h.highScore
    ensures h'.bombs == [] && h'.droppers == [] && h'.spareBombs == AfterLevelBonus(h, level).spareBombs
  {
    var total := 0 + LEVEL_BONUS * level;
    h.(score := total, highScore := if total > h.highScore then total else h.highScore,
       droppers := [], lastBombCheck := 0, bombs := [], spareBombs := h.spareBombs + Reverse(h.bombs))
  }

  /** As written, completing a level throws away every point scored so far:
      a player with 500 points who completes level 1 is left with 1000
      instead of 1500. */
  lemma {:induction false} LevelBonusLosesScore(h: Held, level: int)
    requires h.score > 0
    ensures AfterLevelBonusAsWritten(h, level).score < AfterLevelBonus(h, level).score
    ensures AfterLevelBonusAsWritten(h, level).score == AfterLevelBonus(h.(score := 0), level).score
  {
  }

  // ---------------------------------------------------------------------
  // The state manager

  class GameStateManager {
    var currentState: GameState
    var previousState: GameState
    const game: Game
    var currentLevel: int
    const maxLevel: int := MAX_LEVELS
    var aliensDestroyed: int
    const aliensPerLevel: int := 48
    var stateTimer: real
    const levelCompleteDelay: real := 2000.0
    const gameOverDelay: real := 3000.0

    /** The level is at least 1; the menu is always on level 1, and play,
        pause and level-complete never go past the last level. */
    ghost predicate Sound()
      reads this
    {
      1 <= currentLevel &&
      (currentState == Menu ==> currentLevel == 1) &&
      (currentState == Playing || currentState == Paused || currentState == LevelComplete ==> currentLevel <= maxLevel)
    }

    ghost function Snapshot(): Machine
      reads this
    {
      Machine(currentState, previousState, stateTimer, currentLevel, aliensDestroyed)
    }

    constructor (game: Game)
      ensures this.game == game && Sound()
      ensures currentState == Menu && previousState == Menu && currentLevel == 1 && aliensDestroyed == 0
      ensures stateTimer == 0.0
    {
      this.game := game;
      currentState := Menu;
      previousState := Menu;
      currentLevel := 1;
      aliensDestroyed := 0;
      stateTimer := 0.0;
    }

    /** What entering `s` has done, given the manager's and the game's views
        from before the request. */
    ghost predicate Entered(s: GameState, m0: Machine, h0: Held)
      reads this, game, game.scoringSystem, game.playerLifeManager, game.player, game.player.obj
      reads game.bombSystem, game.bombSystem.bombPool, game.bombSystem.bombPool.base
    {
      match s
      case Menu =>
        currentLevel == 1 && aliensDestroyed == 0 && stateTimer == m0.timer &&
        game.HeldState() == h0.(level := 1, lives := INITIAL_LIVES, score := 0)
      case LevelComplete =>
        currentLevel == m0.level && aliensDestroyed == m0.destroyed && stateTimer == 0.0 &&
        game.HeldState() == AfterLevelBonus(h0, m0.level)
      case GameOver | Victory =>
        currentLevel == m0.level && aliensDestroyed == m0.destroyed && stateTimer == gameOverDelay &&
        game.HeldState() == h0
      case Playing | Paused =>
        currentLevel == m0.level && aliensDestroyed == m0.destroyed && stateTimer == m0.timer &&
        game.HeldState() == h0
    }

    /** Moves to `s` if the table allows it, and runs the entry action of `s`;
        otherwise nothing changes. */
    method SetCurrentState(s: GameState)
      requires game.Machinery() && game.gameStateManager == this
      modifies this, game`level, game.scoringSystem`score, game.scoringSystem`highScore
      modifies game.playerLifeManager`isRespawning, game.player`lives, game.player.obj`active
      modifies game.bombSystem`bombDroppers, game.bombSystem`lastBombCheck, game.bombSystem.bombPool.Repr
      ensures game.Machinery()
      ensures !CanTransition(old(currentState), s) ==> Snapshot() == old(Snapshot()) && game.HeldState() == old(game.HeldState())
      ensures CanTransition(old(currentState), s) ==>
        currentState == s && previousState == old(currentState) && Entered(s, old(Snapshot()), old(game.HeldState()))
      decreases if CanTransition(currentState, s) then 1 else 0, 4
    {
      if CanTransition(currentState, s) {
        previousState := currentState;
        currentState := s;
        OnStateEnter(s);
      }
    }

    /** A request made while the whole game is consistent leaves it consistent. */
    method Request(s: GameState)
      requires game.Valid() && game.gameStateManager == this
      modifies this, game`level, game.scoringSystem`score, game.scoringSystem`highScore
      modifies game.playerLifeManager`isRespawning, game.player`lives, game.player.obj`active
      modifies game.bombSystem`bombDroppers, game.bombSystem`lastBombCheck, game.bombSystem.bombPool.Repr
      ensures game.Valid() && game.ufoSystem.ufo == old(game.ufoSystem.ufo)
      ensures !CanTransition(old(currentState), s) ==> Snapshot() == old(Snapshot()) && game.HeldState() == old(game.HeldState())
      ensures CanTransition(old(currentState), s) ==>
        currentState == s && previousState == old(currentState) && Entered(s, old(Snapshot()), old(game.HeldState()))
    {
      SetCurrentState(s);
    }

    method OnStateEnter(s: GameState)
      requires game.Machinery() && game.gameStateManager == this && currentState == s
      modifies this, game`level, game.scoringSystem`score, game.scoringSystem`highScore
      modifies game.playerLifeManager`isRespawning, game.player`lives, game.player.obj`active
      modifies game.bombSystem`bombDroppers, game.bombSystem`lastBombCheck, game.bombSystem.bombPool.Repr
      ensures game.Machinery()
      ensures currentState == s && previousState == old(previousState) && Entered(s, old(Snapshot()), old(game.HeldState()))
      decreases 1, 3
    {
      match s
      case Menu => OnEnterMenu();
      case Playing => OnEnterPlaying();
      case Paused => OnEnterPaused();
      case LevelComplete => OnEnterLevelComplete();
      case GameOver => OnEnterGameOver();
      case Victory => OnEnterVictory();
    }

    /** A new game: level 1, no aliens counted, three lives and no score. */
    method OnEnterMenu()
      requires game.Machinery() && game.gameStateManager == this
      modifies this`currentLevel, this`aliensDestroyed, game`level, game.scoringSystem`score, game.scoringSystem`highScore
      modifies game.playerLifeManager`isRespawning, game.player`lives, game.player.obj`active
      ensures game.Machinery() && Entered(Menu, old(Snapshot()), old(game.HeldState()))
    {
      game.SetLevel(1);
      game.SetLives(INITIAL_LIVES);
      game.SetScore(0);
      currentLevel := 1;
      aliensDestroyed := 0;
    }

    /** Resumes the game loop: a request to resume that, the manager being
        in play already, changes nothing. */
    method OnEnterPlaying()
      requires game.Machinery() && game.gameStateManager == this && currentState == Playing
      modifies this, game`level, game.scoringSystem`score, game.scoringSystem`highScore
      modifies game.playerLifeManager`isRespawning, game.player`lives, game.player.obj`active
      modifies game.bombSystem`bombDroppers, game.bombSystem`lastBombCheck, game.bombSystem.bombPool.Repr
      ensures game.Machinery() && Snapshot() == old(Snapshot()) && Entered(Playing, old(Snapshot()), old(game.HeldState()))
      decreases 1, 2
    {
      game.Resume();
    }

    /** Pauses the game loop: a request to pause that, the manager being
        paused already, changes nothing. */
    method OnEnterPaused()
      requires game.Machinery() && game.gameStateManager == this && currentState == Paused
      modifies this, game`level, game.scoringSystem`score, game.scoringSystem`highScore
      modifies game.playerLifeManager`isRespawning, game.player`lives, game.player.obj`active
      modifies game.bombSystem`bombDroppers, game.bombSystem`lastBombCheck, game.bombSystem.bombPool.Repr
      ensures game.Machinery() && Snapshot() == old(Snapshot()) && Entered(Paused, old(Snapshot()), old(game.HeldState()))
      decreases 1, 2
    {
      game.Pause();
    }

    /** The level bonus of 1000 points per level is added to the score and
        every bomb is cleared; the level timer waits for the bonus UFO. */
    method OnEnterLevelComplete()
      requires game.Machinery() && game.gameStateManager == this
      modifies this`stateTimer, game.scoringSystem`score, game.scoringSystem`highScore
      modifies game.bombSystem`bombDroppers, game.bombSystem`lastBombCheck, game.bombSystem.bombPool.Repr
      ensures game.Machinery() && Entered(LevelComplete, old(Snapshot()), old(game.HeldState()))
    {
      stateTimer := 0.0;
      var levelBonus := LEVEL_BONUS * currentLevel;
      var current := game.GetScore();
      game.SetScore(current + levelBonus);
      game.ClearBombs();
    }

    /** Arms the countdown back to the menu. */
    method OnEnterGameOver()
      requires game.Machinery() && game.gameStateManager == this
      modifies this`stateTimer
      ensures game.Machinery() && Entered(GameOver, old(Snapshot()), old(game.HeldState()))
    {
      stateTimer := gameOverDelay;
    }

    /** Arms the countdown back to the menu. */
    method OnEnterVictory()
      requires game.Machinery() && game.gameStateManager == this
      modifies this`stateTimer
      ensures game.Machinery() && Entered(Victory, old(Snapshot()), old(game.HeldState()))
    {
      stateTimer := gameOverDelay;
    }

    /** Enter from the menu: play. */
    method StartGame()
      requires game.Machinery() && game.gameStateManager == this && Sound()
      modifies this, game`level, game.scoringSystem`score, game.scoringSystem`highScore
      modifies game.playerLifeManager`isRespawning, game.player`lives, game.player.obj`active
      modifies game.bombSystem`bombDroppers, game.bombSystem`lastBombCheck, game.bombSystem.bombPool.Repr
      ensures game.Machinery() && Sound() && game.HeldState() == old(game.HeldState())
      ensures old(currentState) == Menu ==> Snapshot() == old(Snapshot()).(state := Playing, previous := Menu)
      ensures old(currentState) != Menu ==> Snapshot() == old(Snapshot())
    {
      if currentState == Menu {
        SetCurrentState(Playing);
      }
    }

    /** Pause, from play only. */
    method PauseGame()
      requires game.Machinery() && game.gameStateManager == this
      modifies this, game`level, game.scoringSystem`score, game.scoringSystem`highScore
      modifies game.playerLifeManager`isRespawning, game.player`lives, game.player.obj`active
      modifies game.bombSystem`bombDroppers, game.bombSystem`lastBombCheck, game.bombSystem.bombPool.Repr
      ensures game.Machinery() && game.HeldState() == old(game.HeldState())
      ensures old(currentState) == Playing ==> Snapshot() == old(Snapshot()).(state := Paused, previous := Playing)
      ensures old(currentState) != Playing ==> Snapshot() == old(Snapshot())
      decreases if currentState == Playing then 1 else 0, 5
    {
      if currentState == Playing {
        SetCurrentState(Paused);
      }
    }

    /** Back to play, from pause only. */
    method ResumeGame()
      requires game.Machinery() && game.gameStateManager == this
      modifies this, game`level, game.scoringSystem`score, game.scoringSystem`highScore
      modifies game.playerLifeManager`isRespawning, game.player`lives, game.player.obj`active
      modifies game.bombSystem`bombDroppers, game.bombSystem`lastBombCheck, game.bombSystem.bombPool.Repr
      ensures game.Machinery() && game.HeldState() == old(game.HeldState())
      ensures old(currentState) == Paused ==> Snapshot() == old(Snapshot()).(state := Playing, previous := Paused)
      ensures old(currentState) != Paused ==> Snapshot() == old(Snapshot())
      decreases if currentState == Paused then 1 else 0, 5
    {
      if currentState == Paused {
        SetCurrentState(Playing);
      }
    }

    /** Back to the menu, from pause, game-over or victory only. */
    method ReturnToMenu()
      requires game.Machinery() && game.gameStateManager == this && Sound()
      modifies this, game`level, game.scoringSystem`score, game.scoringSystem`highScore
      modifies game.playerLifeManager`isRespawning, game.player`lives, game.player.obj`active
      modifies game.bombSystem`bombDroppers, game.bombSystem`lastBombCheck, game.bombSystem.bombPool.Repr
      ensures game.Machinery() && Sound()
      ensures var from := old(currentState);
        from == Paused || from == GameOver || from == Victory ==>
          currentState == Menu && previousState == from && Entered(Menu, old(Snapshot()), old(game.HeldState()))
      ensures var from := old(currentState);
        !(from == Paused || from == GameOver || from == Victory) ==>
          Snapshot() == old(Snapshot()) && game.HeldState() == old(game.HeldState())
    {
      if currentState == Paused || currentState == GameOver || currentState == Victory {
        SetCurrentState(Menu);
      }
    }

    /** One frame of the state machine: the countdown, when armed, runs
        down by the frame's time and fires its timed transition when it
        runs out; then the current state does its own check. */
    method Update(deltaTime: real, rng: Stream) returns (rng': Stream)
      requires game.Valid() && game.gameStateManager == this && Sound()
      modifies this, game`level, game.scoringSystem`score, game.scoringSystem`highScore
      modifies game.playerLifeManager`isRespawning, game.player`lives, game.player.obj`active
      modifies game.bombSystem`bombDroppers, game.bombSystem`lastBombCheck, game.bombSystem.bombPool.Repr
      modifies game.alienGrid, game.buildingManager`buildings, game.buildingManager`Repr
      modifies game.ufoSystem`ufo, game.ufoSystem`gameTime, game.ufoSystem`nextSpawnTime, game.bulletPool.Repr
      modifies game.explosionSystem`explosions
      ensures fresh(game.Footprints() - old(game.Footprints()))
      ensures game.Valid() && Sound()
      ensures var expired := old(stateTimer) > 0.0 && old(stateTimer) - deltaTime <= 0.0;
        expired && (old(currentState) == GameOver || old(currentState) == Victory) ==>
          currentState == Menu && previousState == old(currentState) && currentLevel == 1 && aliensDestroyed == 0 &&
          game.HeldState().score == 0 && game.HeldState().lives == INITIAL_LIVES && game.HeldState().level == 1
      ensures var expired := old(stateTimer) > 0.0 && old(stateTimer) - deltaTime <= 0.0;
        !expired && (old(currentState) == GameOver || old(currentState) == Victory) ==>
          Snapshot() == old(Snapshot()).(timer := if old(stateTimer) > 0.0 then old(stateTimer) - deltaTime else old(stateTimer))
      ensures var expired := old(stateTimer) > 0.0 && old(stateTimer) - deltaTime <= 0.0;
        expired && old(currentState) == LevelComplete ==>
          currentLevel == old(currentLevel) + 1 && aliensDestroyed == 0 &&
          (currentLevel > maxLevel ==> currentState == Victory && stateTimer == gameOverDelay) &&
          (currentLevel <= maxLevel && old(game.player.lives) > 0 ==> currentState == Playing && game.level == currentLevel) &&
          (currentLevel <= maxLevel && old(game.player.lives) <= 0 ==> currentState == GameOver)
      ensures var expired := old(stateTimer) > 0.0 && old(stateTimer) - deltaTime <= 0.0;
        !expired && old(currentState) == LevelComplete ==>
          currentState == LevelComplete && currentLevel == old(currentLevel) &&
          stateTimer == (if old(stateTimer) > 0.0 then old(stateTimer) - deltaTime
                         else if old(stateTimer) == 0.0 && !old(game.ufoSystem.IsActive()) then levelCompleteDelay
                         else old(stateTimer))
      ensures var counted := old(Snapshot()).(timer := if old(stateTimer) > 0.0 then old(stateTimer) - deltaTime else old(stateTimer));
        old(currentState) == Menu || old(currentState) == Paused ==>
          Snapshot() == counted && game.HeldState() == old(game.HeldState())
      ensures var counted := old(Snapshot()).(timer := if old(stateTimer) > 0.0 then old(stateTimer) - deltaTime else old(stateTimer));
        var won := old(game.alienGrid.Cleared()) && !old(game.ufoSystem.IsActive());
        old(currentState) == Playing ==>
          Snapshot() == (if won then counted.(state := LevelComplete, previous := Playing, timer := 0.0)
                         else if old(game.player.lives) <= 0 then counted.(state := GameOver, previous := Playing, timer := gameOverDelay)
                         else counted) &&
          game.HeldState() == if won then AfterLevelBonus(old(game.HeldState()), old(currentLevel)) else old(game.HeldState())
    {
      ghost var b1, b2;
      rng', b1 := Tick(deltaTime, rng);
      rng', b2 := StateStep(rng');
    }

    /** The countdown, when armed, runs down by the frame's time; when it
        runs out, the timed transition of the state fires. */
    method Tick(deltaTime: real, rng: Stream) returns (rng': Stream, ghost born: set<object>)
      requires game.Valid() && game.gameStateManager == this && Sound()
      modifies this, game`level, game.scoringSystem`score, game.scoringSystem`highScore
      modifies game.playerLifeManager`isRespawning, game.player`lives, game.player.obj`active
      modifies game.bombSystem`bombDroppers, game.bombSystem`lastBombCheck, game.bombSystem.bombPool.Repr
      modifies game.alienGrid, game.buildingManager`buildings, game.buildingManager`Repr
      modifies game.ufoSystem`ufo, game.ufoSystem`gameTime, game.ufoSystem`nextSpawnTime, game.bulletPool.Repr
      modifies game.explosionSystem`explosions
      ensures game.Valid() && Sound() && game.bombSystem.bombPool.Repr == old(game.bombSystem.bombPool.Repr)
      ensures var expired := old(stateTimer) > 0.0 && old(stateTimer) - deltaTime <= 0.0;
        !expired ==>
          Snapshot() == old(Snapshot()).(timer := if old(stateTimer) > 0.0 then old(stateTimer) - deltaTime else old(stateTimer)) &&
          game.HeldState() == old(game.HeldState()) && game.ufoSystem.IsActive() == old(game.ufoSystem.IsActive()) &&
          game.alienGrid.Cleared() == old(game.alienGrid.Cleared())
      ensures var expired := old(stateTimer) > 0.0 && old(stateTimer) - deltaTime <= 0.0;
        expired && (old(currentState) == GameOver || old(currentState) == Victory) ==>
          currentState == Menu && previousState == old(currentState) && currentLevel == 1 && aliensDestroyed == 0 &&
          game.HeldState().score == 0 && game.HeldState().lives == INITIAL_LIVES && game.HeldState().level == 1
      ensures var expired := old(stateTimer) > 0.0 && old(stateTimer) - deltaTime <= 0.0;
        expired && old(currentState) == LevelComplete ==>
          currentLevel == old(currentLevel) + 1 && aliensDestroyed == 0 && game.HeldState().lives == old(game.HeldState().lives) &&
          (currentLevel <= maxLevel ==> currentState == Playing && game.level == currentLevel && !game.alienGrid.Cleared()) &&
          (currentLevel > maxLevel ==> currentState == Victory && stateTimer == gameOverDelay)
      ensures var expired := old(stateTimer) > 0.0 && old(stateTimer) - deltaTime <= 0.0;
        expired && (old(currentState) == Menu || old(currentState) == Playing || old(currentState) == Paused) ==>
          Snapshot() == old(Snapshot()).(timer := old(stateTimer) - deltaTime) && game.HeldState() == old(game.HeldState()) &&
          game.ufoSystem.IsActive() == old(game.ufoSystem.IsActive()) && game.alienGrid.Cleared() == old(game.alienGrid.Cleared())
      ensures fresh(born) && game.Footprints() <= old(game.Footprints()) + born
    {
      rng', born := rng, {};
      if stateTimer > 0.0 {
        if stateTimer - deltaTime <= 0.0 {
          if currentState == LevelComplete || currentState == GameOver || currentState == Victory {
            rng', born := Expire(deltaTime, rng);
          } else {
            // the timed transitions have no case for the other states
            RunDown(deltaTime);
          }
        } else {
          RunDown(deltaTime);
        }
      }
    }

    /** The countdown loses the frame's time. */
    method RunDown(deltaTime: real)
      requires game.Valid() && game.gameStateManager == this && Sound()
      modifies this`stateTimer
      ensures game.Valid() && Sound() && game.Footprints() == old(game.Footprints())
      ensures Snapshot() == old(Snapshot()).(timer := old(stateTimer) - deltaTime) && game.HeldState() == old(game.HeldState())
      ensures game.ufoSystem.IsActive() == old(game.ufoSystem.IsActive()) && game.alienGrid.Cleared() == old(game.alienGrid.Cleared())
    {
      stateTimer := stateTimer - deltaTime;
    }

    /** The countdown runs out in this frame: the timed transition fires. */
    method Expire(deltaTime: real, rng: Stream) returns (rng': Stream, ghost born: set<object>)
      requires game.Valid() && game.gameStateManager == this && Sound()
      requires stateTimer > 0.0 && stateTimer - deltaTime <= 0.0
      requires currentState == LevelComplete || currentState == GameOver || currentState == Victory
      modifies this, game`level, game.scoringSystem`score, game.scoringSystem`highScore
      modifies game.playerLifeManager`isRespawning, game.player`lives, game.player.obj`active
      modifies game.bombSystem`bombDroppers, game.bombSystem`lastBombCheck, game.bombSystem.bombPool.Repr
      modifies game.alienGrid, game.buildingManager`buildings, game.buildingManager`Repr
      modifies game.ufoSystem`ufo, game.ufoSystem`gameTime, game.ufoSystem`nextSpawnTime, game.bulletPool.Repr
      modifies game.explosionSystem`explosions
      ensures game.Valid() && Sound() && game.bombSystem.bombPool.Repr == old(game.bombSystem.bombPool.Repr)
      ensures old(currentState) == GameOver || old(currentState) == Victory ==>
        currentState == Menu && previousState == old(currentState) && currentLevel == 1 && aliensDestroyed == 0 &&
        game.HeldState().score == 0 && game.HeldState().lives == INITIAL_LIVES && game.HeldState().level == 1
      ensures old(currentState) == LevelComplete ==>
        currentLevel == old(currentLevel) + 1 && aliensDestroyed == 0 && game.HeldState().lives == old(game.HeldState().lives) &&
        (currentLevel <= maxLevel ==> currentState == Playing && game.level == currentLevel && !game.alienGrid.Cleared()) &&
        (currentLevel > maxLevel ==> currentState == Victory && stateTimer == gameOverDelay)
      ensures fresh(born) && game.Footprints() <= old(game.Footprints()) + born
    {
      RunDown(deltaTime);
      rng', born := HandleTimedTransition(rng);
    }

    /** The check of the current state: play may end the level or the
        game, level-complete arms its countdown, other states wait. */
    method StateStep(rng: Stream) returns (rng': Stream, ghost born: set<object>)
      requires game.Valid() && game.gameStateManager == this && Sound()
      modifies this, game`level, game.scoringSystem`score, game.scoringSystem`highScore
      modifies game.playerLifeManager`isRespawning, game.player`lives, game.player.obj`active
      modifies game.bombSystem`bombDroppers, game.bombSystem`lastBombCheck, game.bombSystem.bombPool.Repr
      modifies game.ufoSystem`ufo, game.ufoSystem`nextSpawnTime
      ensures game.Valid() && Sound()
      ensures var won := old(game.alienGrid.Cleared()) && !old(game.ufoSystem.IsActive());
        Snapshot() ==
          if old(currentState) == Playing then
            if won then old(Snapshot()).(state := LevelComplete, previous := Playing, timer := 0.0)
            else if old(game.player.lives) <= 0 then old(Snapshot()).(state := GameOver, previous := Playing, timer := gameOverDelay)
            else old(Snapshot())
          else if old(currentState) == LevelComplete then
            old(Snapshot()).(timer := if old(stateTimer) == 0.0 && !old(game.ufoSystem.IsActive()) then levelCompleteDelay else old(stateTimer))
          else old(Snapshot())
      ensures var won := old(game.alienGrid.Cleared()) && !old(game.ufoSystem.IsActive());
        game.HeldState() ==
          if old(currentState) == Playing && won then AfterLevelBonus(old(game.HeldState()), old(currentLevel)) else old(game.HeldState())
      ensures fresh(born) && game.Footprints() <= old(game.Footprints()) + born
    {
      rng', born := rng, {};
      match currentState {
        case Playing =>
          rng', born := UpdatePlayingState(rng);
        case LevelComplete =>
          UpdateLevelCompleteState();
        case _ =>
      }
    }

    /** The timed transitions: level-complete moves on to the next level,
        game-over and victory go back to the menu; other states ignore the
        countdown. */
    method HandleTimedTransition(rng: Stream) returns (rng': Stream, ghost born: set<object>)
      requires game.Valid() && game.gameStateManager == this && Sound()
      modifies this, game`level, game.scoringSystem`score, game.scoringSystem`highScore
      modifies game.playerLifeManager`isRespawning, game.player`lives, game.player.obj`active
      modifies game.bombSystem`bombDroppers, game.bombSystem`lastBombCheck, game.bombSystem.bombPool.Repr
      modifies game.alienGrid, game.buildingManager`buildings, game.buildingManager`Repr
      modifies game.ufoSystem`ufo, game.ufoSystem`gameTime, game.ufoSystem`nextSpawnTime, game.bulletPool.Repr
      modifies game.explosionSystem`explosions
      ensures game.Valid() && Sound()
      ensures old(currentState) == LevelComplete ==>
        currentLevel == old(currentLevel) + 1 && aliensDestroyed == 0 && game.HeldState().lives == old(game.HeldState().lives) &&
        (currentLevel <= maxLevel ==> currentState == Playing && game.level == currentLevel && !game.alienGrid.Cleared()) &&
        (currentLevel > maxLevel ==> currentState == Victory && stateTimer == gameOverDelay)
      ensures old(currentState) == GameOver || old(currentState) == Victory ==>
        currentState == Menu && previousState == old(currentState) && Entered(Menu, old(Snapshot()), old(game.HeldState()))
      ensures old(currentState) == Menu || old(currentState) == Playing || old(currentState) == Paused ==>
        Snapshot() == old(Snapshot()) && game.HeldState() == old(game.HeldState()) &&
        game.ufoSystem.IsActive() == old(game.ufoSystem.IsActive()) && game.alienGrid.Cleared() == old(game.alienGrid.Cleared())
      ensures game.bombSystem.bombPool.Repr == old(game.bombSystem.bombPool.Repr)
      ensures fresh(born) && game.Footprints() <= old(game.Footprints()) + born
    {
      rng', born := rng, {};
      match currentState {
        case LevelComplete =>
          rng', born := StartNextLevel(rng);
        case GameOver =>
          ExpireToMenu();
        case Victory =>
          ExpireToMenu();
        case _ =>
      }
    }

    /** Game over and victory both count down to the menu. */
    method ExpireToMenu()
      requires game.Valid() && game.gameStateManager == this && Sound()
      requires currentState == GameOver || currentState == Victory
      modifies this, game`level, game.scoringSystem`score, game.scoringSystem`highScore
      modifies game.playerLifeManager`isRespawning, game.player`lives, game.player.obj`active
      modifies game.bombSystem`bombDroppers, game.bombSystem`lastBombCheck, game.bombSystem.bombPool.Repr
      ensures game.Valid() && Sound()
      ensures currentState == Menu && previousState == old(currentState) && Entered(Menu, old(Snapshot()), old(game.HeldState()))
      ensures game.bombSystem.bombPool.Repr == old(game.bombSystem.bombPool.Repr)
      ensures game.Footprints() == old(game.Footprints())
    {
      Request(Menu);
    }

    /** The next level: up to the last level, a new field and play again;
        past it, victory. */
    method StartNextLevel(rng: Stream) returns (rng': Stream, ghost born: set<object>)
      requires game.Valid() && game.gameStateManager == this && Sound() && currentState == LevelComplete
      modifies this, game`level, game.scoringSystem`score, game.scoringSystem`highScore
      modifies game.playerLifeManager`isRespawning, game.player`lives, game.player.obj`active
      modifies game.bombSystem`bombDroppers, game.bombSystem`lastBombCheck, game.bombSystem.bombPool.Repr
      modifies game.alienGrid, game.buildingManager`buildings, game.buildingManager`Repr
      modifies game.ufoSystem`ufo, game.ufoSystem`gameTime, game.ufoSystem`nextSpawnTime, game.bulletPool.Repr
      modifies game.explosionSystem`explosions
      ensures game.Valid() && Sound()
      ensures currentLevel == old(currentLevel) + 1 && aliensDestroyed == 0 && previousState == LevelComplete
      ensures game.HeldState().lives == old(game.HeldState().lives)
      ensures currentLevel <= maxLevel ==>
        currentState == Playing && game.level == currentLevel && stateTimer == old(stateTimer) && !game.alienGrid.Cleared()
      ensures game.bombSystem.bombPool.Repr == old(game.bombSystem.bombPool.Repr)
      ensures currentLevel > maxLevel ==> currentState == Victory && stateTimer == gameOverDelay && rng' == rng
      ensures fresh(born) && game.Footprints() <= old(game.Footprints()) + born
    {
      if currentLevel + 1 <= maxLevel {
        rng', born := ResumeOnNewField(rng);
      } else {
        rng', born := rng, {};
        AdvanceTo(Victory);
      }
    }

    /** The level counter moves on and the alien count starts again. */
    method CountNextLevel()
      requires game.Valid() && game.gameStateManager == this
      modifies this`currentLevel, this`aliensDestroyed
      ensures game.Valid() && currentLevel == old(currentLevel) + 1 && aliensDestroyed == 0
    {
      currentLevel := currentLevel + 1;
      aliensDestroyed := 0;
    }

    /** The level counter moves on, the alien count starts again, and the
        manager enters `s`: play on the next level, or victory past the last. */
    method AdvanceTo(s: GameState)
      requires game.Valid() && game.gameStateManager == this && currentState == LevelComplete
      requires s == Playing || s == Victory
      modifies this, game`level, game.scoringSystem`score, game.scoringSystem`highScore
      modifies game.playerLifeManager`isRespawning, game.player`lives, game.player.obj`active
      modifies game.bombSystem`bombDroppers, game.bombSystem`lastBombCheck, game.bombSystem.bombPool.Repr
      ensures game.Valid() && game.HeldState() == old(game.HeldState())
      ensures Snapshot() == Machine(s, LevelComplete, if s == Victory then gameOverDelay else old(stateTimer), old(currentLevel) + 1, 0)
      ensures game.Footprints() == old(game.Footprints())
    {
      CountNextLevel();
      Request(s);
    }

    /** A level within range begins: the game shows it, the field is new,
        and play resumes. */
    method ResumeOnNewField(rng: Stream) returns (rng': Stream, ghost born: set<object>)
      requires game.Valid() && game.gameStateManager == this && currentState == LevelComplete
      modifies this, game`level, game.scoringSystem`score, game.scoringSystem`highScore
      modifies game.playerLifeManager`isRespawning, game.player`lives, game.player.obj`active
      modifies game.bombSystem`bombDroppers, game.bombSystem`lastBombCheck, game.bombSystem.bombPool.Repr
      modifies game.alienGrid, game.buildingManager`buildings, game.buildingManager`Repr
      modifies game.ufoSystem`ufo, game.ufoSystem`gameTime, game.ufoSystem`nextSpawnTime, game.bulletPool.Repr
      modifies game.explosionSystem`explosions
      ensures game.Valid()
      ensures Snapshot() == old(Snapshot()).(state := Playing, previous := LevelComplete, level := old(currentLevel) + 1, destroyed := 0)
      ensures game.level == currentLevel && game.HeldState().lives == old(game.HeldState().lives) && !game.alienGrid.Cleared()
      ensures game.bombSystem.bombPool.Repr == old(game.bombSystem.bombPool.Repr)
      ensures fresh(born) && game.Footprints() <= old(game.Footprints()) + born
    {
      // Entering play changes nothing outside the manager, so it may come
      // before the new field as well as after it.
      AdvanceTo(Playing);
      rng', born := game.BeginLevel(currentLevel, rng);
    }

    /** In play: with the formation cleared and no UFO in play, a bonus UFO
        is launched and the level is complete; with no lives left the game
        is over, a request the table refuses once the level is complete. */
    method UpdatePlayingState(rng: Stream) returns (rng': Stream, ghost born: set<object>)
      requires game.Valid() && game.gameStateManager == this && Sound() && currentState == Playing
      modifies this, game`level, game.scoringSystem`score, game.scoringSystem`highScore
      modifies game.playerLifeManager`isRespawning, game.player`lives, game.player.obj`active
      modifies game.bombSystem`bombDroppers, game.bombSystem`lastBombCheck, game.bombSystem.bombPool.Repr
      modifies game.ufoSystem`ufo, game.ufoSystem`nextSpawnTime
      ensures game.Valid() && Sound()
      ensures var won := old(game.alienGrid.Cleared()) && !old(game.ufoSystem.IsActive());
        Snapshot() == if won then old(Snapshot()).(state := LevelComplete, previous := Playing, timer := 0.0)
                      else if old(game.player.lives) <= 0 then old(Snapshot()).(state := GameOver, previous := Playing, timer := gameOverDelay)
                      else old(Snapshot())
      ensures var won := old(game.alienGrid.Cleared()) && !old(game.ufoSystem.IsActive());
        game.HeldState() == if won then AfterLevelBonus(old(game.HeldState()), old(currentLevel)) else old(game.HeldState())
      ensures var won := old(game.alienGrid.Cleared()) && !old(game.ufoSystem.IsActive());
        if won then game.ufoSystem.ufo.Some? && game.ufoSystem.ufo.value.isBonus && game.ufoSystem.ufo != old(game.ufoSystem.ufo) else game.ufoSystem.ufo == old(game.ufoSystem.ufo)
      ensures fresh(born) && game.Footprints() <= old(game.Footprints()) + born
    {
      rng', born := CheckCleared(rng);
      CheckEnd();
    }

    /** The checks after the cleared field: defeat, then victory. */
    method CheckEnd()
      requires game.Valid() && game.gameStateManager == this && Sound()
      requires currentState == Playing || currentState == LevelComplete
      modifies this, game`level, game.scoringSystem`score, game.scoringSystem`highScore
      modifies game.playerLifeManager`isRespawning, game.player`lives, game.player.obj`active
      modifies game.bombSystem`bombDroppers, game.bombSystem`lastBombCheck, game.bombSystem.bombPool.Repr
      ensures game.Valid() && Sound() && game.ufoSystem.ufo == old(game.ufoSystem.ufo)
      ensures game.HeldState() == old(game.HeldState())
      ensures Snapshot() == if old(currentState) == Playing && old(game.player.lives) <= 0
                            then old(Snapshot()).(state := GameOver, previous := Playing, timer := gameOverDelay)
                            else old(Snapshot())
    {
      CheckDefeat();
      CheckVictory();
    }

    /** The second check in play: with no lives left the game is over, a
        request the table refuses once the level is complete. */
    method CheckDefeat()
      requires game.Valid() && game.gameStateManager == this && Sound()
      requires currentState == Playing || currentState == LevelComplete
      modifies this, game`level, game.scoringSystem`score, game.scoringSystem`highScore
      modifies game.playerLifeManager`isRespawning, game.player`lives, game.player.obj`active
      modifies game.bombSystem`bombDroppers, game.bombSystem`lastBombCheck, game.bombSystem.bombPool.Repr
      ensures game.Valid() && Sound() && game.ufoSystem.ufo == old(game.ufoSystem.ufo)
      ensures game.HeldState() == old(game.HeldState())
      ensures Snapshot() == if old(currentState) == Playing && old(game.player.lives) <= 0
                            then old(Snapshot()).(state := GameOver, previous := Playing, timer := gameOverDelay)
                            else old(Snapshot())
    {
      if game.GetLives() <= 0 {
        Request(GameOver);
      }
    }

    /** The third check in play: a level past the last one is victory.  The
        level never passes the last one in play, so the check never fires. */
    method CheckVictory()
      requires game.Valid() && game.gameStateManager == this && Sound()
      modifies this, game`level, game.scoringSystem`score, game.scoringSystem`highScore
      modifies game.playerLifeManager`isRespawning, game.player`lives, game.player.obj`active
      modifies game.bombSystem`bombDroppers, game.bombSystem`lastBombCheck, game.bombSystem.bombPool.Repr
      ensures game.Valid() && Sound() && game.ufoSystem.ufo == old(game.ufoSystem.ufo)
      ensures game.HeldState() == old(game.HeldState())
      ensures old(currentLevel) <= maxLevel ==> Snapshot() == old(Snapshot())
    {
      if currentLevel > maxLevel {
        Request(Victory);
      }
    }

    /** The first check in play: a cleared formation with no UFO in play
        launches the bonus UFO and completes the level. */
    method CheckCleared(rng: Stream) returns (rng': Stream, ghost born: set<object>)
      requires game.Valid() && game.gameStateManager == this && Sound() && currentState == Playing
      modifies this, game`level, game.scoringSystem`score, game.scoringSystem`highScore
      modifies game.playerLifeManager`isRespawning, game.player`lives, game.player.obj`active
      modifies game.bombSystem`bombDroppers, game.bombSystem`lastBombCheck, game.bombSystem.bombPool.Repr
      modifies game.ufoSystem`ufo, game.ufoSystem`nextSpawnTime
      ensures game.Valid() && Sound()
      ensures var won := old(game.alienGrid.Cleared()) && !old(game.ufoSystem.IsActive());
        Snapshot() == if won then old(Snapshot()).(state := LevelComplete, previous := Playing, timer := 0.0) else old(Snapshot())
      ensures var won := old(game.alienGrid.Cleared()) && !old(game.ufoSystem.IsActive());
        game.HeldState() == if won then AfterLevelBonus(old(game.HeldState()), old(currentLevel)) else old(game.HeldState())
      ensures var won := old(game.alienGrid.Cleared()) && !old(game.ufoSystem.IsActive());
        if won then game.ufoSystem.ufo.Some? && game.ufoSystem.ufo.value.isBonus && game.ufoSystem.ufo != old(game.ufoSystem.ufo) else game.ufoSystem.ufo == old(game.ufoSystem.ufo)
      ensures fresh(born) && game.Footprints() <= old(game.Footprints()) + born
    {
      rng', born := rng, {};
      var none := NoAliensLeft();
      if none && !game.ufoSystem.IsActive() {
        rng', born := CompleteWithBonus(rng);
      }
    }

    /** Launches the bonus UFO into an empty sky and completes the level. */
    method CompleteWithBonus(rng: Stream) returns (rng': Stream, ghost born: set<object>)
      requires game.Valid() && game.gameStateManager == this && Sound() && currentState == Playing
      requires !game.ufoSystem.IsActive()
      modifies this, game`level, game.scoringSystem`score, game.scoringSystem`highScore
      modifies game.playerLifeManager`isRespawning, game.player`lives, game.player.obj`active
      modifies game.bombSystem`bombDroppers, game.bombSystem`lastBombCheck, game.bombSystem.bombPool.Repr
      modifies game.ufoSystem`ufo, game.ufoSystem`nextSpawnTime
      ensures game.Valid() && Sound()
      ensures Snapshot() == old(Snapshot()).(state := LevelComplete, previous := Playing, timer := 0.0)
      ensures game.HeldState() == AfterLevelBonus(old(game.HeldState()), old(currentLevel))
      ensures game.ufoSystem.ufo.Some? && game.ufoSystem.ufo.value.isBonus && game.ufoSystem.ufo != old(game.ufoSystem.ufo)
      ensures fresh(born) && game.Footprints() <= old(game.Footprints()) + born
    {
      rng', born := game.LaunchBonus(rng);
      Request(LevelComplete);
    }

    /** The formation check of play: no alien is counted as active. */
    method NoAliensLeft() returns (none: bool)
      requires game.alienGrid.Valid()
      ensures none == game.alienGrid.Cleared()
    {
      var count := game.alienGrid.GetActiveAlienCount();
      none := count == 0;
    }

    /** In level-complete: once the bonus UFO is gone, the countdown to the
        next level is armed, only while it is exactly 0. */
    method UpdateLevelCompleteState()
      requires game.ufoSystem.Valid()
      modifies this`stateTimer
      ensures stateTimer == if old(stateTimer) == 0.0 && !game.ufoSystem.IsActive() then levelCompleteDelay else old(stateTimer)
    {
      if !game.ufoSystem.IsActive() && stateTimer == 0.0 {
        stateTimer := levelCompleteDelay;
      }
    }

    function GetCurrentState(): GameState
      reads this
    {
      currentState
    }

    function GetPreviousState(): GameState
      reads this
    {
      previousState
    }

    function GetCurrentLevel(): int
      reads this
    {
      currentLevel
    }

    function GetMaxLevel(): int {
      maxLevel
    }

    function GetAliensDestroyed(): int
      reads this
    {
      aliensDestroyed
    }

    function GetAliensPerLevel(): int {
      aliensPerLevel
    }

    method IncrementAliensDestroyed()
      modifies this`aliensDestroyed
      ensures aliensDestroyed == old(aliensDestroyed) + 1
    {
      aliensDestroyed := aliensDestroyed + 1;
    }

    /** The share of a full formation destroyed so far. */
    function GetLevelProgress(): (p: real)
      reads this
      ensures p * 48.0 == aliensDestroyed as real
      ensures 0 <= aliensDestroyed <= 48 ==> 0.0 <= p <= 1.0
    {
      aliensDestroyed as real / aliensPerLevel as real
    }

    /** Alien speed grows by 10% per level. */
    function GetAlienSpeedMultiplier(): (m: real)
      reads this
      ensures m == LevelScaling(currentLevel, 0.1)
    {
      1.0 + (currentLevel - 1) as real * 0.1
    }

    /** Alien fire rate grows by 15% per level. */
    function GetAlienFireRateMultiplier(): (m: real)
      reads this
      ensures m == LevelScaling(currentLevel, 0.15)
    {
      1.0 + (currentLevel - 1) as real * 0.15
    }

    /** UFO spawn chance grows by 20% per level. */
    function GetUfoSpawnChanceMultiplier(): (m: real)
      reads this
      ensures m == LevelScaling(currentLevel, 0.2)
    {
      1.0 + (currentLevel - 1) as real * 0.2
    }

    predicate IsPlaying() reads this { currentState == Playing }
    predicate IsPaused() reads this { currentState == Paused }
    predicate IsGameOver() reads this { currentState == GameOver }
    predicate IsVictory() reads this { currentState == Victory }
    predicate IsInMenu() reads this { currentState == Menu }
    predicate IsInLevelComplete() reads this { currentState == LevelComplete }
  }

  // ---------------------------------------------------------------------
  // The game

  /** Builds the formation, the buildings, the UFO system, the collision
      system and the scoring system of a new game, each with a footprint of
      its own. */
  method AssembleField(savedHighScore: nat, firstUfoDraw: Draw)
    returns (grid: AlienGrid, row: BuildingManagers.BuildingManager, ufos: UfoSystem, collisions: CollisionSystem,
             scoring: ScoringSystem)
    ensures grid.Valid() && row.Valid()
    ensures ufos.Valid() && ufos.ufo.None? && scoring.Valid() && scoring.score == 0 && scoring.highScore == savedHighScore
    ensures grid.Repr !! row.Repr && {grid, ufos, collisions, scoring} !! grid.Repr + row.Repr
  {
    grid := new AlienGrid();
    row := new BuildingManagers.BuildingManager();
    ufos := new UfoSystem(firstUfoDraw);
    collisions := new CollisionSystem();
    scoring := new ScoringSystem(savedHighScore);
  }

  /** The bomb system's frame, as far as the game relies on it: the system
      stays sound and its pool's footprint grows only by new objects. */
  method StepBombs(bombs: BombSystem, aliens: seq<Alien>, now: int, rng: Stream) returns (rng': Stream)
    requires bombs.Valid() && bombs.Apart(aliens)
    modifies bombs`bombDroppers, bombs`lastBombCheck, bombs.bombPool.Repr
    ensures bombs.Valid() && fresh(bombs.bombPool.Repr - old(bombs.bombPool.Repr))
  {
    ghost var swept, mid, rngMid, room, sights;
    rng', swept, mid, rngMid, room, sights := bombs.Update(aliens, now, rng);
  }

  /** Builds the bullet pool, the cannon, the bomb system, the life manager
      and the explosion system of a new game, each with a footprint of its
      own. */
  method AssembleForces(ghost taken: set<object>)
    returns (bullets: BulletPool, p: Player, bombs: BombSystem, lives: PlayerLifeManager, bursts: Explosions.ExplosionSystem)
    ensures taken !! bullets.Repr + bombs.bombPool.Repr + bursts.Repr + {p, p.obj, lives, bombs}
    ensures bullets.Valid() && bullets.base.active == []
    ensures p.Valid() && p.bulletPool == Some(bullets) && p.lives == INITIAL_LIVES && p.obj.active
    ensures p.input == Some(Keys(false, false, false))
    ensures bombs.Valid() && bombs.bombPool.base.active == []
    ensures lives.Valid() && lives.player == p && !lives.isRespawning
    ensures bursts.Valid() && bursts.explosions == []
    ensures bullets.Repr !! bombs.bombPool.Repr && bullets.Repr !! bursts.Repr && bombs.bombPool.Repr !! bursts.Repr
    ensures {p, p.obj, lives, bombs} !! bullets.Repr + bombs.bombPool.Repr + bursts.Repr
  {
    bullets := new BulletPool();
    p := new Player(PLAYER_START_X, PLAYER_Y);
    p.SetInputSystem(Keys(false, false, false));
    p.SetBulletPool(bullets);
    bombs := new BombSystem();
    assert bombs.bombPool.Repr !! bullets.Repr + {p, p.obj, bombs};
    lives := new PlayerLifeManager(p);
    bursts := new Explosions.ExplosionSystem();
    assert bursts.Repr !! bullets.Repr + bombs.bombPool.Repr + {p, p.obj, bombs, lives};
  }

  /** The pieces of a game: its subsystems and its cannon, whose
      footprints share no object. */
  ghost predicate Apart(grid: AlienGrid, row: BuildingManagers.BuildingManager, ufos: UfoSystem, collisions: CollisionSystem,
                        scoring: ScoringSystem, bullets: BulletPool, p: Player, bombs: BombSystem, lives: PlayerLifeManager,
                        bursts: Explosions.ExplosionSystem)
    reads grid`Repr, row`Repr, ufos`ufo, bullets`Repr, bombs.bombPool`Repr, bursts`Repr
  {
    var C: set<object> := {grid, ufos, collisions, scoring, p, p.obj, lives, bombs};
    var A := grid.Repr;
    var B := row.Repr;
    var U: set<object> := ufos.Footprint();
    var P := bullets.Repr;
    var D := bombs.bombPool.Repr;
    var E := bursts.Repr;
    C !! A && C !! B && C !! U && C !! P && C !! D && C !! E &&
    A !! B && A !! U && A !! P && A !! D && A !! E &&
    B !! U && B !! P && B !! D && B !! E &&
    U !! P && U !! D && U !! E &&
    P !! D && P !! E &&
    D !! E
  }

  /** The pieces of a game, each consistent, linked and apart. */
  ghost predicate Assembled(grid: AlienGrid, row: BuildingManagers.BuildingManager, ufos: UfoSystem, collisions: CollisionSystem,
                            scoring: ScoringSystem, bullets: BulletPool, p: Player, bombs: BombSystem, lives: PlayerLifeManager,
                            bursts: Explosions.ExplosionSystem)
    reads grid, grid.Repr, row, row.Repr, ufos, ufos.Footprint(), scoring, bullets, bullets.base, p, p.obj
    reads bombs, bombs.bombPool, bombs.bombPool.base, lives, bursts, bursts.Repr
  {
    grid.Valid() && row.Valid() && ufos.Valid() && scoring.Valid() && bullets.Valid() && p.bulletPool == Some(bullets) &&
    bombs.Valid() && lives.player == p && lives.Valid() && bursts.Valid() &&
    Apart(grid, row, ufos, collisions, scoring, bullets, p, bombs, lives, bursts)
  }

  /** Builds the pieces of a new game, each in its starting state. */
  method AssembleAll(savedHighScore: nat, firstUfoDraw: Draw)
    returns (grid: AlienGrid, row: BuildingManagers.BuildingManager, ufos: UfoSystem, collisions: CollisionSystem,
             scoring: ScoringSystem, bullets: BulletPool, p: Player, bombs: BombSystem, lives: PlayerLifeManager,
             bursts: Explosions.ExplosionSystem)
    ensures Assembled(grid, row, ufos, collisions, scoring, bullets, p, bombs, lives, bursts)
    ensures ufos.ufo.None? && scoring.score == 0 && scoring.highScore == savedHighScore
    ensures bullets.base.active == [] && p.lives == INITIAL_LIVES && p.obj.active
    ensures bombs.bombPool.base.active == [] && !lives.isRespawning && bursts.explosions == []
    ensures p.input == Some(Keys(false, false, false))
  {
    grid, row, ufos, collisions, scoring := AssembleField(savedHighScore, firstUfoDraw);
    ghost var field := grid.Repr + row.Repr + {grid, ufos, collisions, scoring};
    bullets, p, bombs, lives, bursts := AssembleForces(field);
  }

  /** An object not yet allocated at one point is in no set allocated there. */
  twostate lemma {:induction false} Outside(new o: object, S: set<object>)
    requires old(allocated(S)) && !old(allocated(o))
    ensures o !in S
  {
  }

  /** The records of a list of bullets. */
  function BulletObjs(bs: seq<Bullet>): (r: seq<GameObject>)
    ensures |r| == |bs| && forall k :: 0 <= k < |bs| ==> r[k] == bs[k].obj
  {
    seq(|bs|, k requires 0 <= k < |bs| => bs[k].obj)
  }

  /** The records of a list of bombs. */
  function BombObjs(bs: seq<Bomb>): (r: seq<GameObject>)
    ensures |r| == |bs| && forall k :: 0 <= k < |bs| ==> r[k] == bs[k].obj
  {
    seq(|bs|, k requires 0 <= k < |bs| => bs[k].obj)
  }

  /** The records of a list of aliens. */
  function AlienObjs(as_: seq<Alien>): (r: seq<GameObject>)
    ensures |r| == |as_| && forall k :: 0 <= k < |as_| ==> r[k] == as_[k].obj
  {
    seq(|as_|, k requires 0 <= k < |as_| => as_[k].obj)
  }

  /** The records of the bullets in flight are distinct and in the pool's footprint. */
  lemma {:induction false} BulletRecords(bullets: BulletPool)
    requires bullets.Valid()
    ensures var shots := BulletObjs(bullets.base.active);
      NoDup(shots) && forall k :: 0 <= k < |shots| ==> shots[k] in bullets.Repr
  {
    var act := bullets.base.active;
    NoDupSplit(bullets.base.pool, act);
    forall i, j | 0 <= i < j < |act| ensures act[i].obj != act[j].obj {
      assert act[i] in bullets.base.pool + act && act[j] in bullets.base.pool + act;
    }
    forall k | 0 <= k < |act| ensures act[k].obj in bullets.Repr {
      assert act[k] in bullets.base.pool + act;
    }
  }

  /** The records of the bombs in flight are distinct and in the pool's footprint. */
  lemma {:induction false} BombRecords(bombs: BombPool)
    requires bombs.Valid()
    ensures var shots := BombObjs(bombs.base.active);
      NoDup(shots) && forall k :: 0 <= k < |shots| ==> shots[k] in bombs.Repr
  {
    var act := bombs.base.active;
    NoDupSplit(bombs.base.pool, act);
    forall i, j | 0 <= i < j < |act| ensures act[i].obj != act[j].obj {
      assert act[i] in bombs.base.pool + act && act[j] in bombs.base.pool + act;
    }
    forall k | 0 <= k < |act| ensures act[k].obj in bombs.Repr {
      assert act[k] in bombs.base.pool + act;
    }
  }

  class Game {
    /** The game's own score field; nothing ever writes it. */
    const score: int := 0
    var level: int
    var state: GameState
    const alienGrid: AlienGrid
    const buildingManager: BuildingManagers.BuildingManager
    const ufoSystem: UfoSystem
    const collisionSystem: CollisionSystem
    const scoringSystem: ScoringSystem
    var gameStateManager: GameStateManager?
    const bulletPool: BulletPool
    const player: Player
    const bombSystem: BombSystem
    const playerLifeManager: PlayerLifeManager
    const explosionSystem: Explosions.ExplosionSystem

    /** The objects of the game that belong to no subsystem's footprint. */
    ghost function Core(): set<object>
      reads this`gameStateManager
    {
      {this, alienGrid, ufoSystem, collisionSystem, scoringSystem, player, player.obj, playerLifeManager, bombSystem} +
      (if gameStateManager == null then {} else {gameStateManager})
    }

    /** Everything the game owns. */
    ghost function Repr(): set<object>
      reads this`gameStateManager, alienGrid, buildingManager, ufoSystem, bulletPool, bombSystem.bombPool, explosionSystem
    {
      Core() + alienGrid.Repr + buildingManager.Repr + ufoSystem.Footprint() + bulletPool.Repr +
      bombSystem.bombPool.Repr + explosionSystem.Repr
    }

    /** The footprints of the subsystems share no object with each other or
        with the core, and the game and its state manager are in none of them. */
    ghost predicate Separate()
      reads this`gameStateManager, alienGrid`Repr, buildingManager`Repr, ufoSystem`ufo, bulletPool`Repr
      reads bombSystem.bombPool`Repr, explosionSystem`Repr
    {
      Apart(alienGrid, buildingManager, ufoSystem, collisionSystem, scoringSystem, bulletPool, player, bombSystem,
            playerLifeManager, explosionSystem) &&
      var F := alienGrid.Repr + buildingManager.Repr + ufoSystem.Footprint() + bulletPool.Repr +
               bombSystem.bombPool.Repr + explosionSystem.Repr +
               {alienGrid, ufoSystem, collisionSystem, scoringSystem, player, player.obj, playerLifeManager, bombSystem};
      this !in F && gameStateManager !in F + {this}
    }

    /** The part of the game the state machine works on: the manager's link
        back, the scoring system, the cannon and its life manager, and the
        bombs, whose footprint holds none of the others. */
    ghost predicate Machinery()
      reads this`gameStateManager, scoringSystem, playerLifeManager, player, player.obj, bombSystem, bombSystem.bombPool
      reads bombSystem.bombPool.base
    {
      gameStateManager != null && gameStateManager.game == this && scoringSystem.Valid() &&
      playerLifeManager.player == player && playerLifeManager.Valid() && bombSystem.Valid() &&
      {this, gameStateManager, scoringSystem, playerLifeManager, player, player.obj} !! bombSystem.bombPool.Repr
    }

    ghost predicate Valid()
      reads this`gameStateManager, alienGrid, buildingManager, buildingManager.Repr, ufoSystem, ufoSystem.Footprint()
      reads scoringSystem, bulletPool, bulletPool.base, player, player.obj, bombSystem, bombSystem.bombPool
      reads bombSystem.bombPool.base, playerLifeManager, explosionSystem, explosionSystem.Repr
    {
      Machinery() && alienGrid.Valid() && buildingManager.Valid() && ufoSystem.Valid() &&
      bulletPool.Valid() && player.bulletPool == Some(bulletPool) && explosionSystem.Valid() && Separate()
    }

    ghost function HeldState(): Held
      reads this`level, scoringSystem, playerLifeManager, player, player.obj, bombSystem, bombSystem.bombPool, bombSystem.bombPool.base
    {
      Held(level, scoringSystem.score, scoringSystem.highScore, player.lives, player.obj.active,
           playerLifeManager.isRespawning, bombSystem.bombDroppers, bombSystem.lastBombCheck,
           bombSystem.bombPool.base.active, bombSystem.bombPool.base.pool, bombSystem.bombPool.Repr)
    }

    /** Builds every subsystem and the cannon, and starts in the menu on level 1. */
    constructor (savedHighScore: nat, firstUfoDraw: Draw)
      ensures Valid() && gameStateManager.Sound()
      ensures gameStateManager.currentState == Menu && level == 1 && state == Menu
      ensures scoringSystem.score == 0 && scoringSystem.highScore == savedHighScore
      ensures player.lives == INITIAL_LIVES && player.obj.active && !playerLifeManager.isRespawning
      ensures player.input == Some(Keys(false, false, false))
      ensures ufoSystem.ufo.None?
      ensures bulletPool.base.active == [] && bombSystem.bombPool.base.active == [] && explosionSystem.explosions == []
    {
      var grid, row, ufos, collisions, scoring, bullets, p, bombs, lives, bursts := AssembleAll(savedHighScore, firstUfoDraw);
      ghost var F := grid.Repr + row.Repr + ufos.Footprint() + bullets.Repr + bombs.bombPool.Repr + bursts.Repr +
                     {grid, ufos, collisions, scoring, p, p.obj, lives, bombs};
      label Built:
      level := 1;
      state := Menu;
      alienGrid := grid;
      buildingManager := row;
      ufoSystem := ufos;
      collisionSystem := collisions;
      scoringSystem := scoring;
      bulletPool := bullets;
      player := p;
      bombSystem := bombs;
      playerLifeManager := lives;
      explosionSystem := bursts;
      new;
      Outside@Built(this, F);
      Attach();
    }

    /** The state manager, linked back to the game, is the last piece;
        it starts in the menu on level 1. */
    method Attach()
      requires Assembled(alienGrid, buildingManager, ufoSystem, collisionSystem, scoringSystem, bulletPool, player,
                         bombSystem, playerLifeManager, explosionSystem)
      requires this !in alienGrid.Repr + buildingManager.Repr + ufoSystem.Footprint() + bulletPool.Repr +
                        bombSystem.bombPool.Repr + explosionSystem.Repr +
                        {alienGrid, ufoSystem, collisionSystem, scoringSystem, player, player.obj, playerLifeManager, bombSystem}
      modifies this`gameStateManager
      ensures Valid() && gameStateManager.Sound() && gameStateManager.currentState == Menu
      ensures HeldState() == old(HeldState()) && player.input == old(player.input) && ufoSystem.ufo == old(ufoSystem.ufo)
      ensures bulletPool.base.active == old(bulletPool.base.active) && explosionSystem.explosions == old(explosionSystem.explosions)
    {
      gameStateManager := new GameStateManager(this);
    }

    /** Asks the state manager to pause. */
    method Pause()
      requires Machinery()
      modifies gameStateManager, this`level, scoringSystem`score, scoringSystem`highScore
      modifies playerLifeManager`isRespawning, player`lives, player.obj`active
      modifies bombSystem`bombDroppers, bombSystem`lastBombCheck, bombSystem.bombPool.Repr
      ensures Machinery() && HeldState() == old(HeldState())
      ensures old(gameStateManager.currentState) == Playing ==>
        gameStateManager.Snapshot() == old(gameStateManager.Snapshot()).(state := Paused, previous := Playing)
      ensures old(gameStateManager.currentState) != Playing ==>
        gameStateManager.Snapshot() == old(gameStateManager.Snapshot())
      decreases if gameStateManager != null && gameStateManager.currentState == Playing then 1 else 0, 6
    {
      gameStateManager.PauseGame();
    }

    /** Asks the state manager to resume. */
    method Resume()
      requires Machinery()
      modifies gameStateManager, this`level, scoringSystem`score, scoringSystem`highScore
      modifies playerLifeManager`isRespawning, player`lives, player.obj`active
      modifies bombSystem`bombDroppers, bombSystem`lastBombCheck, bombSystem.bombPool.Repr
      ensures Machinery() && HeldState() == old(HeldState())
      ensures old(gameStateManager.currentState) == Paused ==>
        gameStateManager.Snapshot() == old(gameStateManager.Snapshot()).(state := Playing, previous := Paused)
      ensures old(gameStateManager.currentState) != Paused ==>
        gameStateManager.Snapshot() == old(gameStateManager.Snapshot())
      decreases if gameStateManager != null && gameStateManager.currentState == Paused then 1 else 0, 6
    {
      gameStateManager.ResumeGame();
    }

    method SetLevel(level: int)
      modifies this`level
      ensures HeldState() == old(HeldState()).(level := level)
    {
      this.level := level;
    }

    /** Sets the lives through the life manager. */
    method SetLives(lives: int)
      requires playerLifeManager.player == player && playerLifeManager.Valid()
      modifies playerLifeManager`isRespawning, player`lives, player.obj`active
      ensures playerLifeManager.Valid()
      ensures HeldState() == old(HeldState()).(lives := ClampLives(lives), alive := old(player.obj.active) && lives > 0,
                                     respawning := old(playerLifeManager.isRespawning) && lives > 0)
    {
      playerLifeManager.SetLives(lives);
    }

    /** Sets the score of the scoring system; the high score follows it up. */
    method SetScore(score: int)
      requires scoringSystem.Valid()
      modifies scoringSystem`score, scoringSystem`highScore
      ensures scoringSystem.Valid()
      ensures HeldState() == old(HeldState()).(score := score, highScore := if score > old(scoringSystem.highScore) then score else old(scoringSystem.highScore))
    {
      scoringSystem.SetScore(score);
    }

    /** The score as the original reads it: the game's own field, which
        nothing writes, so it is 0 however many points have been scored. */
    function GetScoreAsWritten(): (r: int)
      requires Valid()
      reads this`gameStateManager, alienGrid, buildingManager, buildingManager.Repr, ufoSystem, ufoSystem.Footprint()
      reads scoringSystem, bulletPool, bulletPool.base, player, player.obj, bombSystem, bombSystem.bombPool
      reads bombSystem.bombPool.base, playerLifeManager, explosionSystem, explosionSystem.Repr
      ensures r == 0
    {
      score
    }

    /** The score as evidently intended: the points the scoring system holds. */
    function GetScore(): (r: int)
      reads scoringSystem
      ensures r == HeldState().score
    {
      scoringSystem.score
    }

    function GetLives(): (r: int)
      requires playerLifeManager.player == player
      reads playerLifeManager, player
      ensures r == player.lives
    {
      playerLifeManager.GetRemainingLives()
    }

    function GetLevel(): int
      reads this`level
    {
      level
    }

    function GetState(): GameState
      reads this`state
    {
      state
    }

    /** The footprints of the subsystems together. */
    ghost function Footprints(): set<object>
      reads alienGrid, buildingManager, ufoSystem, bulletPool, bombSystem.bombPool, explosionSystem
    {
      alienGrid.Repr + buildingManager.Repr + ufoSystem.Footprint() + bulletPool.Repr + bombSystem.bombPool.Repr +
      explosionSystem.Repr
    }

    /** The game's footprints stay separate when at most one of them, the
        one numbered `grown` (formation, buildings, UFO, bullets, bombs,
        explosions), has taken in objects, and only new ones, while every
        other footprint has at most lost some. */
    twostate lemma {:induction false} KeepsSeparate(grown: nat)
      requires old(Separate()) && gameStateManager == old(gameStateManager)
      requires alienGrid.Repr <= old(alienGrid.Repr) || (grown == 0 && fresh(alienGrid.Repr - old(alienGrid.Repr)))
      requires buildingManager.Repr <= old(buildingManager.Repr) ||
               (grown == 1 && fresh(buildingManager.Repr - old(buildingManager.Repr)))
      requires ufoSystem.Footprint() <= old(ufoSystem.Footprint()) ||
               (grown == 2 && fresh(ufoSystem.Footprint() - old(ufoSystem.Footprint())))
      requires bulletPool.Repr <= old(bulletPool.Repr) || (grown == 3 && fresh(bulletPool.Repr - old(bulletPool.Repr)))
      requires bombSystem.bombPool.Repr <= old(bombSystem.bombPool.Repr) ||
               (grown == 4 && fresh(bombSystem.bombPool.Repr - old(bombSystem.bombPool.Repr)))
      requires explosionSystem.Repr <= old(explosionSystem.Repr) ||
               (grown == 5 && fresh(explosionSystem.Repr - old(explosionSystem.Repr)))
      ensures Separate()
    {
    }

    /** A new level: a new formation and a new row of buildings, an empty
        UFO slot with its clock restarted, and no bullets, bombs or
        explosions; the score, the lives and the level are kept. */
    method StartNewLevel(rng: Stream) returns (rng': Stream, ghost born: set<object>)
      requires Valid()
      modifies alienGrid, buildingManager`buildings, buildingManager`Repr
      modifies ufoSystem`ufo, ufoSystem`gameTime, ufoSystem`nextSpawnTime, bulletPool.Repr
      modifies bombSystem`bombDroppers, bombSystem`lastBombCheck, bombSystem.bombPool.Repr, explosionSystem`explosions
      ensures Valid()
      ensures alienGrid.StartingLayout() && alienGrid.movementDirection == 1 && alienGrid.lastMoveTime == 0
      ensures buildingManager.StartingRow()
      ensures ufoSystem.ufo.None? && ufoSystem.gameTime == 0.0 && rng' == rng.(next := rng.next + 1)
      ensures bulletPool.base.active == [] && explosionSystem.explosions == []
      ensures HeldState() == old(HeldState()).(droppers := [], lastBombCheck := 0, bombs := [],
                                     spareBombs := old(bombSystem.bombPool.base.pool) + Reverse(old(bombSystem.bombPool.base.active)))
      ensures fresh(born) && Footprints() <= old(Footprints()) + born
    {
      // The subsystems share no state, so clearing the skies before
      // rebuilding the field has the same effect as the reverse order.
      rng' := ClearSkies(rng);
      born := RebuildField();
    }

    /** Shows level `n` and starts a new level on it. */
    method BeginLevel(n: int, rng: Stream) returns (rng': Stream, ghost born: set<object>)
      requires Valid()
      modifies this`level, alienGrid, buildingManager`buildings, buildingManager`Repr
      modifies ufoSystem`ufo, ufoSystem`gameTime, ufoSystem`nextSpawnTime, bulletPool.Repr
      modifies bombSystem`bombDroppers, bombSystem`lastBombCheck, bombSystem.bombPool.Repr, explosionSystem`explosions
      ensures Valid() && level == n && !alienGrid.Cleared()
      ensures alienGrid.StartingLayout() && buildingManager.StartingRow() && ufoSystem.ufo.None?
      ensures bulletPool.base.active == [] && explosionSystem.explosions == []
      ensures HeldState() == old(HeldState()).(level := n, droppers := [], lastBombCheck := 0, bombs := [],
                                     spareBombs := old(bombSystem.bombPool.base.pool) + Reverse(old(bombSystem.bombPool.base.active)))
      ensures fresh(born) && Footprints() <= old(Footprints()) + born
      ensures bombSystem.bombPool.Repr == old(bombSystem.bombPool.Repr)
    {
      SetLevel(n);
      rng', born := StartNewLevel(rng);
      assert InGrid(0, 0);
    }

    /** The formation and the buildings of a new level. */
    method RebuildField() returns (ghost born: set<object>)
      requires Valid()
      modifies alienGrid, buildingManager`buildings, buildingManager`Repr
      ensures Valid() && HeldState() == old(HeldState()) && unchanged(ufoSystem, bulletPool.base, explosionSystem)
      ensures alienGrid.StartingLayout() && alienGrid.movementDirection == 1 && alienGrid.lastMoveTime == 0
      ensures buildingManager.StartingRow()
      ensures fresh(born) && Footprints() <= old(Footprints()) + born
    {
      ghost var formed := Reform();
      ghost var raised := Raise();
      born := formed + raised;
    }

    /** The formation of a new level. */
    method Reform() returns (ghost born: set<object>)
      requires Valid()
      modifies alienGrid
      ensures Valid() && HeldState() == old(HeldState()) && unchanged(ufoSystem, bulletPool.base, explosionSystem)
      ensures alienGrid.StartingLayout() && alienGrid.movementDirection == 1 && alienGrid.lastMoveTime == 0
      ensures fresh(born) && Footprints() <= old(Footprints()) + born
    {
      label Start:
      alienGrid.Reset();
      KeepsSeparate@Start(0);
      born := alienGrid.Repr;
    }

    /** The buildings of a new level. */
    method Raise() returns (ghost born: set<object>)
      requires Valid()
      modifies buildingManager`buildings, buildingManager`Repr
      ensures Valid() && HeldState() == old(HeldState()) && unchanged(ufoSystem, bulletPool.base, explosionSystem)
      ensures buildingManager.StartingRow() && alienGrid.StartingLayout() == old(alienGrid.StartingLayout())
      ensures fresh(born) && Footprints() <= old(Footprints()) + born
    {
      label Start:
      buildingManager.Reset();
      KeepsSeparate@Start(1);
      born := buildingManager.Repr - old(buildingManager.Repr);
    }

    /** No UFO, bullet, bomb or explosion left in play, and the UFO clock restarted. */
    method ClearSkies(rng: Stream) returns (rng': Stream)
      requires Valid()
      modifies ufoSystem`ufo, ufoSystem`gameTime, ufoSystem`nextSpawnTime, bulletPool.Repr
      modifies bombSystem`bombDroppers, bombSystem`lastBombCheck, bombSystem.bombPool.Repr, explosionSystem`explosions
      ensures Valid()
      ensures ufoSystem.ufo.None? && ufoSystem.gameTime == 0.0 && rng' == rng.(next := rng.next + 1)
      ensures bulletPool.base.active == [] && explosionSystem.explosions == []
      ensures HeldState() == old(HeldState()).(droppers := [], lastBombCheck := 0, bombs := [],
                                     spareBombs := old(bombSystem.bombPool.base.pool) + Reverse(old(bombSystem.bombPool.base.active)))
      ensures Footprints() <= old(Footprints())
    {
      rng' := ClearUfo(rng);
      ClearShots();
    }

    /** The UFO slot emptied and its clock restarted. */
    method ClearUfo(rng: Stream) returns (rng': Stream)
      requires Valid()
      modifies ufoSystem`ufo, ufoSystem`gameTime, ufoSystem`nextSpawnTime
      ensures Valid() && HeldState() == old(HeldState())
      ensures ufoSystem.ufo.None? && ufoSystem.gameTime == 0.0 && rng' == rng.(next := rng.next + 1)
      ensures Footprints() <= old(Footprints())
    {
      label Start:
      rng' := ufoSystem.Reset(rng);
      KeepsSeparate@Start(0);
    }

    /** No bullet, bomb or explosion left in play. */
    method ClearShots()
      requires Valid()
      modifies bulletPool.Repr, bombSystem`bombDroppers, bombSystem`lastBombCheck, bombSystem.bombPool.Repr, explosionSystem`explosions
      ensures Valid() && unchanged(ufoSystem)
      ensures bulletPool.base.active == [] && explosionSystem.explosions == []
      ensures HeldState() == old(HeldState()).(droppers := [], lastBombCheck := 0, bombs := [],
                                     spareBombs := old(bombSystem.bombPool.base.pool) + Reverse(old(bombSystem.bombPool.base.active)))
      ensures Footprints() <= old(Footprints())
    {
      label Start:
      bulletPool.Reset();
      bombSystem.Reset();
      explosionSystem.Clear();
      KeepsSeparate@Start(0);
    }

    /** Launches the bonus UFO into an empty sky. */
    method LaunchBonus(rng: Stream) returns (rng': Stream, ghost born: set<object>)
      requires Valid() && !ufoSystem.IsActive()
      modifies ufoSystem`ufo, ufoSystem`nextSpawnTime
      ensures Valid() && HeldState() == old(HeldState())
      ensures ufoSystem.ufo.Some? && ufoSystem.ufo.value.isBonus && ufoSystem.ufo != old(ufoSystem.ufo)
      ensures fresh(born) && Footprints() <= old(Footprints()) + born
    {
      label Quiet:
      rng' := ufoSystem.SpawnBonusUFO(rng);
      KeepsSeparate@Quiet(2);
      born := ufoSystem.Footprint();
    }

    /** One collision pass over the projectiles in play when it begins:
        bullets against the aliens, the buildings and the UFO, then bombs
        against the cannon and the buildings, all at the frame's time `now`. */
    method CheckCollisions(now: int, rng: Stream) returns (rng': Stream)
      requires Valid()
      modifies collisionSystem`spatialGrid, scoringSystem, bulletPool.Repr, alienGrid.Repr, buildingManager.Repr - {buildingManager}
      modifies ufoSystem`ufo, ufoSystem.Footprint(), bombSystem.bombPool.Repr
      modifies playerLifeManager`lastDeathTime, playerLifeManager`isRespawning, player`lives, player.obj`active
      modifies explosionSystem`explosions, explosionSystem`Repr
      ensures Valid() && bulletPool.Repr == old(bulletPool.Repr) && bombSystem.bombPool.Repr == old(bombSystem.bombPool.Repr)
    {
      var bombs := BombObjs(bombSystem.GetActiveBombs());
      BombRecords(bombSystem.bombPool);
      BulletPass(now);
      rng' := BombPass(bombs, now, rng);
    }

    /** The bullets' half of the pass: aliens, then buildings, then the UFO. */
    method BulletPass(now: int)
      requires Valid()
      modifies collisionSystem`spatialGrid, scoringSystem, bulletPool.Repr, alienGrid.Repr, buildingManager.Repr - {buildingManager}
      modifies ufoSystem`ufo, ufoSystem.Footprint()
      ensures Valid() && bulletPool.Repr == old(bulletPool.Repr)
    {
      var shots := BulletObjs(bulletPool.base.GetActive());
      var all := alienGrid.GetAliens();
      var targets := AlienObjs(all);
      BulletRecords(bulletPool);
      alienGrid.FlatInRepr();
      ShotsOnEverything(shots, targets, now);
    }

    /** The three bullet phases for the given bullets and alien targets. */
    method ShotsOnEverything(shots: seq<GameObject>, targets: seq<GameObject>, now: int)
      requires Valid() && NoDup(shots)
      requires forall k :: 0 <= k < |shots| ==> shots[k] in bulletPool.Repr
      requires forall k :: 0 <= k < |targets| ==> targets[k] in alienGrid.Repr
      modifies collisionSystem`spatialGrid, scoringSystem, CollisionEffects.Objects(shots)`active
      modifies CollisionEffects.Objects(targets)`active, buildingManager.Repr - {buildingManager}
      modifies ufoSystem`ufo, ufoSystem.Footprint()
      ensures Valid()
    {
      ShotsOnAliensAndBuildings(shots, targets, now);
      var _ := ShootUfo(shots, now);
    }

    /** The alien phase, then the building phase, for the same bullets. */
    method ShotsOnAliensAndBuildings(shots: seq<GameObject>, targets: seq<GameObject>, now: int)
      requires Valid() && NoDup(shots)
      requires forall k :: 0 <= k < |shots| ==> shots[k] in bulletPool.Repr
      requires forall k :: 0 <= k < |targets| ==> targets[k] in alienGrid.Repr
      modifies collisionSystem`spatialGrid, scoringSystem, CollisionEffects.Objects(shots)`active
      modifies CollisionEffects.Objects(targets)`active, buildingManager.Repr - {buildingManager}
      ensures Valid()
    {
      HitAliens(shots, targets, now);
      ShotsOnBuildings(shots);
    }

    /** The bombs' half of the pass: the cannon, then the buildings. */
    method BombPass(bombs: seq<GameObject>, now: int, rng: Stream) returns (rng': Stream)
      requires Valid() && NoDup(bombs)
      requires forall k :: 0 <= k < |bombs| ==> bombs[k] in bombSystem.bombPool.Repr
      modifies CollisionEffects.Objects(bombs)`active, buildingManager.Repr - {buildingManager}
      modifies playerLifeManager`lastDeathTime, playerLifeManager`isRespawning, player`lives, player.obj`active
      modifies explosionSystem`explosions, explosionSystem`Repr
      ensures Valid()
    {
      rng' := BombsOnPlayer(bombs, now, rng);
      rng' := BombsOnBuildings(bombs, rng');
    }

    /** The alien phase of the collision pass: every contact the collision
        system reports destroys its bullet and its alien and scores an alien
        hit at the frame's time. */
    method HitAliens(shots: seq<GameObject>, targets: seq<GameObject>, now: int)
      requires Valid()
      requires forall k :: 0 <= k < |shots| ==> shots[k] in bulletPool.Repr
      requires forall k :: 0 <= k < |targets| ==> targets[k] in alienGrid.Repr
      modifies collisionSystem`spatialGrid, scoringSystem, CollisionEffects.Objects(shots)`active
      modifies CollisionEffects.Objects(targets)`active
      ensures Valid()
      ensures var records := old(BulletAlienContacts(shots, targets));
        var gap := now - old(scoringSystem.lastHitTime);
        (forall c :: c in records ==> !c.entity1.active && !c.entity2.active) &&
        scoringSystem.score ==
          old(scoringSystem.score) + CollisionEffects.RunPoints(ALIEN_POINTS, old(scoringSystem.comboHalves), gap, |records|)
    {
      CollisionEffects.AlienPhase(collisionSystem, shots, targets, scoringSystem, now);
    }

    /** The bullet-building phase: the bullets in turn against the row, at 25 damage. */
    method ShotsOnBuildings(shots: seq<GameObject>)
      requires Valid() && NoDup(shots)
      requires forall k :: 0 <= k < |shots| ==> shots[k] in bulletPool.Repr
      modifies CollisionEffects.Objects(shots)`active, buildingManager.Repr - {buildingManager}
      ensures Valid() && buildingManager.buildings == old(buildingManager.buildings)
    {
      var _ := CollisionEffects.StrikeBuildings(buildingManager, shots, CollisionEffects.BULLET_DAMAGE);
    }

    /** The UFO phase: at most one bullet brings the UFO down and scores its points. */
    method ShootUfo(shots: seq<GameObject>, now: int) returns (k: int)
      requires Valid() && NoDup(shots)
      requires forall j :: 0 <= j < |shots| ==> shots[j] in bulletPool.Repr
      modifies CollisionEffects.Objects(shots)`active, ufoSystem`ufo, ufoSystem.Footprint(), scoringSystem
      ensures Valid() && -1 <= k < |shots|
      ensures !old(ufoSystem.IsActive()) ==> k == -1
      ensures old(ufoSystem.IsActive()) ==> old(CollisionEffects.FirstStrike(shots, ufoSystem.ufo.value.obj, k))
      ensures k >= 0 ==>
        !shots[k].active && ufoSystem.ufo.None? &&
        scoringSystem.comboHalves == NextHalves(old(scoringSystem.comboHalves), now - old(scoringSystem.lastHitTime)) &&
        scoringSystem.score == old(scoringSystem.score) + Award(old(ufoSystem.ufo.value.pointValue), scoringSystem.comboHalves) &&
        scoringSystem.lastHitTime == now &&
        scoringSystem.scoreHistory == old(scoringSystem.scoreHistory) +
          [ScoreEvent(Award(old(ufoSystem.ufo.value.pointValue), scoringSystem.comboHalves),
                      "ufo" + " (" + MultiplierText(scoringSystem.comboHalves) + "x)", now)] &&
        scoringSystem.highScore ==
          if scoringSystem.score > old(scoringSystem.highScore) then scoringSystem.score else old(scoringSystem.highScore)
      ensures k < 0 ==> ufoSystem.ufo == old(ufoSystem.ufo) && scoringSystem.score == old(scoringSystem.score)
    {
      label Start:
      k := CollisionEffects.ShootDown(shots, ufoSystem, scoringSystem, now);
      KeepsSeparate@Start(2);
    }

    /** The bomb-player phase, taken only while the cannon is active. */
    method BombsOnPlayer(bombs: seq<GameObject>, now: int, rng: Stream) returns (rng': Stream)
      requires Valid()
      requires forall k :: 0 <= k < |bombs| ==> bombs[k] in bombSystem.bombPool.Repr
      modifies CollisionEffects.Objects(bombs)`active, playerLifeManager`lastDeathTime, playerLifeManager`isRespawning
      modifies player`lives, player.obj`active, explosionSystem`explosions, explosionSystem`Repr
      ensures Valid()
      ensures var hit := old(BombPlayerContacts(bombs, player.obj)) != [];
        (hit && !old(playerLifeManager.isRespawning) ==>
          player.lives == LivesAfterHit(old(player.lives)) && !player.obj.active && playerLifeManager.isRespawning &&
          playerLifeManager.lastDeathTime == now) &&
        (!hit || old(playerLifeManager.isRespawning) ==>
          player.lives == old(player.lives) && player.obj.active == old(player.obj.active) &&
          playerLifeManager.isRespawning == old(playerLifeManager.isRespawning))
    {
      label Start:
      rng' := CollisionEffects.PlayerPhase(collisionSystem, bombs, playerLifeManager, explosionSystem, now, rng);
      KeepsSeparate@Start(5);
    }

    /** The bomb-building phase: the bombs in turn against the row, at 20
        damage, then a small burst at each bomb spent.  The volley reads
        neither the bursts nor the random draws, so adding the bursts after
        it leaves the same state as adding each one as its bomb strikes. */
    method BombsOnBuildings(bombs: seq<GameObject>, rng: Stream) returns (rng': Stream)
      requires Valid() && NoDup(bombs)
      requires forall k :: 0 <= k < |bombs| ==> bombs[k] in bombSystem.bombPool.Repr
      modifies CollisionEffects.Objects(bombs)`active, buildingManager.Repr - {buildingManager}
      modifies explosionSystem`explosions, explosionSystem`Repr
      ensures Valid()
    {
      var struck := BombVolley(bombs);
      rng' := BuildingBursts(bombs, struck, rng);
    }

    /** The bombs' volley against the row. */
    method BombVolley(bombs: seq<GameObject>) returns (struck: seq<bool>)
      requires Valid() && NoDup(bombs)
      requires forall k :: 0 <= k < |bombs| ==> bombs[k] in bombSystem.bombPool.Repr
      modifies CollisionEffects.Objects(bombs)`active, buildingManager.Repr - {buildingManager}
      ensures Valid() && |struck| == |bombs|
    {
      struck := CollisionEffects.StrikeBuildings(buildingManager, bombs, CollisionEffects.BOMB_DAMAGE);
    }

    /** A small burst at each bomb marked struck. */
    method BuildingBursts(bombs: seq<GameObject>, struck: seq<bool>, rng: Stream) returns (rng': Stream)
      requires Valid() && |struck| == |bombs|
      modifies explosionSystem`explosions, explosionSystem`Repr
      ensures Valid()
    {
      label Start:
      rng' := CollisionEffects.BurstAll(explosionSystem, bombs, struck, rng);
      KeepsSeparate@Start(5);
    }

    /** One frame of the game at time `now`, with the Enter and Escape keys
        as pressed in it and `keys` the cannon's keys held: the state
        machine steps, the keys are handled, the subsystems run as the state
        allows, and the cannon moves and fires by the held keys. */
    method Update(deltaTime: real, now: int, enter: bool, escape: bool, keys: Keys, rng: Stream) returns (rng': Stream)
      requires Valid() && gameStateManager.Sound()
      modifies this`state, this`level, gameStateManager, scoringSystem, collisionSystem`spatialGrid, playerLifeManager
      modifies player, player.obj, alienGrid, ufoSystem, bombSystem, Footprints()
      ensures Valid() && gameStateManager.Sound() && player.input == Some(keys)
    {
      rng' := Control(deltaTime, enter, escape, rng);
      rng' := Simulate(deltaTime, now, keys, rng');
    }

    /** The state machine's step, then the keys. */
    method Control(deltaTime: real, enter: bool, escape: bool, rng: Stream) returns (rng': Stream)
      requires Valid() && gameStateManager.Sound()
      modifies this`state, this`level, gameStateManager, scoringSystem, playerLifeManager, player, player.obj
      modifies alienGrid, ufoSystem, bombSystem, Footprints()
      ensures Valid() && gameStateManager.Sound()
      ensures gameStateManager.currentState == MenuInput(state, enter, escape)
      ensures fresh(Footprints() - old(Footprints()))
    {
      rng' := StepMachine(deltaTime, rng);
      ghost var stepped := Footprints();
      HandleMenuInput(enter, escape);
      assert Footprints() == stepped;
    }

    /** The state manager's step; the game then takes its state. */
    method StepMachine(deltaTime: real, rng: Stream) returns (rng': Stream)
      requires Valid() && gameStateManager.Sound()
      modifies this`state, this`level, gameStateManager, scoringSystem, playerLifeManager, player, player.obj
      modifies alienGrid, ufoSystem, bombSystem, Footprints()
      ensures Valid() && gameStateManager.Sound() && state == gameStateManager.currentState
      ensures fresh(Footprints() - old(Footprints()))
    {
      rng' := gameStateManager.Update(deltaTime, rng);
      TakeState();
    }

    /** The game takes the state manager's current state as its own. */
    method TakeState()
      requires Valid() && gameStateManager.Sound()
      modifies this`state
      ensures Valid() && gameStateManager.Sound() && state == gameStateManager.currentState
      ensures Footprints() == old(Footprints())
    {
      state := gameStateManager.GetCurrentState();
    }

    /** The frame's keys: Enter, then Escape; the manager ends in the state
        the keys ask for. */
    method HandleMenuInput(enter: bool, escape: bool)
      requires Valid() && gameStateManager.Sound()
      modifies gameStateManager, this`level, scoringSystem`score, scoringSystem`highScore
      modifies playerLifeManager`isRespawning, player`lives, player.obj`active
      modifies bombSystem`bombDroppers, bombSystem`lastBombCheck, bombSystem.bombPool.Repr
      ensures Valid() && gameStateManager.Sound()
      ensures gameStateManager.currentState == MenuInput(old(gameStateManager.currentState), enter, escape)
      ensures var s := old(gameStateManager.currentState);
        HeldState() == if enter && (s == GameOver || s == Victory)
                       then old(HeldState()).(level := 1, lives := INITIAL_LIVES, score := 0)
                       else old(HeldState())
    {
      if enter {
        PressEnter();
      }
      if escape {
        PressEscape();
      }
    }

    /** Enter: from the menu a game starts; from game-over or victory the
        game goes back to the menu, which restores level 1, three lives and
        no score. */
    method PressEnter()
      requires Valid() && gameStateManager.Sound()
      modifies gameStateManager, this`level, scoringSystem`score, scoringSystem`highScore
      modifies playerLifeManager`isRespawning, player`lives, player.obj`active
      modifies bombSystem`bombDroppers, bombSystem`lastBombCheck, bombSystem.bombPool.Repr
      ensures Valid() && gameStateManager.Sound()
      ensures gameStateManager.currentState == AfterEnter(old(gameStateManager.currentState))
      ensures var s := old(gameStateManager.currentState);
        HeldState() == if s == GameOver || s == Victory
                       then old(HeldState()).(level := 1, lives := INITIAL_LIVES, score := 0)
                       else old(HeldState())
    {
      if gameStateManager.IsInMenu() {
        StartFromMenu();
      } else if gameStateManager.IsGameOver() || gameStateManager.IsVictory() {
        LeaveFinishedGame();
      }
    }

    /** Enter in the menu: the manager starts a game. */
    method StartFromMenu()
      requires Valid() && gameStateManager.Sound() && gameStateManager.currentState == Menu
      modifies gameStateManager, this`level, scoringSystem`score, scoringSystem`highScore
      modifies playerLifeManager`isRespawning, player`lives, player.obj`active
      modifies bombSystem`bombDroppers, bombSystem`lastBombCheck, bombSystem.bombPool.Repr
      ensures Valid() && gameStateManager.Sound() && HeldState() == old(HeldState())
      ensures gameStateManager.currentState == Playing
    {
      gameStateManager.StartGame();
    }

    /** Enter after game-over or victory: the manager goes back to the menu. */
    method LeaveFinishedGame()
      requires Valid() && gameStateManager.Sound()
      requires gameStateManager.currentState == GameOver || gameStateManager.currentState == Victory
      modifies gameStateManager, this`level, scoringSystem`score, scoringSystem`highScore
      modifies playerLifeManager`isRespawning, player`lives, player.obj`active
      modifies bombSystem`bombDroppers, bombSystem`lastBombCheck, bombSystem.bombPool.Repr
      ensures Valid() && gameStateManager.Sound() && gameStateManager.currentState == Menu
      ensures HeldState() == old(HeldState()).(level := 1, lives := INITIAL_LIVES, score := 0)
    {
      gameStateManager.ReturnToMenu();
    }

    /** Escape: play pauses and pause resumes. */
    method PressEscape()
      requires Valid() && gameStateManager.Sound()
      modifies gameStateManager, this`level, scoringSystem`score, scoringSystem`highScore
      modifies playerLifeManager`isRespawning, player`lives, player.obj`active
      modifies bombSystem`bombDroppers, bombSystem`lastBombCheck, bombSystem.bombPool.Repr
      ensures Valid() && gameStateManager.Sound() && HeldState() == old(HeldState())
      ensures gameStateManager.currentState == AfterEscape(old(gameStateManager.currentState))
    {
      if gameStateManager.IsPlaying() {
        PauseFromPlay();
      } else if gameStateManager.IsPaused() {
        ResumeFromPause();
      }
    }

    /** Escape in play: the manager pauses. */
    method PauseFromPlay()
      requires Valid() && gameStateManager.Sound() && gameStateManager.currentState == Playing
      modifies gameStateManager, this`level, scoringSystem`score, scoringSystem`highScore
      modifies playerLifeManager`isRespawning, player`lives, player.obj`active
      modifies bombSystem`bombDroppers, bombSystem`lastBombCheck, bombSystem.bombPool.Repr
      ensures Valid() && gameStateManager.Sound() && HeldState() == old(HeldState())
      ensures gameStateManager.currentState == Paused
    {
      gameStateManager.PauseGame();
    }

    /** Escape in pause: the manager resumes play. */
    method ResumeFromPause()
      requires Valid() && gameStateManager.Sound() && gameStateManager.currentState == Paused
      modifies gameStateManager, this`level, scoringSystem`score, scoringSystem`highScore
      modifies playerLifeManager`isRespawning, player`lives, player.obj`active
      modifies bombSystem`bombDroppers, bombSystem`lastBombCheck, bombSystem.bombPool.Repr
      ensures Valid() && gameStateManager.Sound() && HeldState() == old(HeldState())
      ensures gameStateManager.currentState == Playing
    {
      gameStateManager.ResumeGame();
    }

    /** The subsystems' frame, then the cannon's. */
    method Simulate(deltaTime: real, now: int, keys: Keys, rng: Stream) returns (rng': Stream)
      requires Valid()
      modifies collisionSystem`spatialGrid, scoringSystem, alienGrid`movementDirection, alienGrid`lastMoveTime
      modifies alienGrid`edgeReached, alienGrid.Repr, buildingManager.Repr, ufoSystem`ufo, ufoSystem`gameTime
      modifies ufoSystem`nextSpawnTime, ufoSystem.Footprint(), bulletPool.Repr, bombSystem`bombDroppers
      modifies bombSystem`lastBombCheck, bombSystem.bombPool.Repr, playerLifeManager`lastDeathTime
      modifies playerLifeManager`isRespawning, player`lives, player`lastShotTime, player`canShoot, player`input, player.obj
      modifies explosionSystem.Repr
      ensures Valid() && player.input == Some(keys)
    {
      rng' := RunSystems(deltaTime, now, rng);
      MovePlayer(deltaTime, now, keys);
    }

    /** The subsystems' frame.  In play and at level-complete the UFO flies,
        though a new one appears only in play, the bullets and explosions
        move and the collisions are checked; in play only, the formation
        marches, the buildings settle and the bombs drop.  In the other
        states nothing here changes. */
    method RunSystems(deltaTime: real, now: int, rng: Stream) returns (rng': Stream)
      requires Valid()
      modifies collisionSystem`spatialGrid, scoringSystem, alienGrid`movementDirection, alienGrid`lastMoveTime
      modifies alienGrid`edgeReached, alienGrid.Repr, buildingManager.Repr, ufoSystem`ufo, ufoSystem`gameTime
      modifies ufoSystem`nextSpawnTime, ufoSystem.Footprint(), bulletPool.Repr, bombSystem`bombDroppers
      modifies bombSystem`lastBombCheck, bombSystem.bombPool.Repr, playerLifeManager`lastDeathTime
      modifies playerLifeManager`isRespawning, player`lives, player.obj`active, explosionSystem.Repr
      ensures Valid() && bulletPool.Repr == old(bulletPool.Repr)
      ensures var s := old(gameStateManager.currentState);
        s != Playing && s != LevelComplete ==>
          rng' == rng && unchanged(ufoSystem, scoringSystem, bulletPool.base, bombSystem.bombPool.base, player, player.obj)
    {
      rng' := rng;
      var playing := gameStateManager.IsPlaying();
      if playing || gameStateManager.IsInLevelComplete() {
        rng' := Airborne(deltaTime, playing, now, rng');
      }
      if playing {
        rng' := Ground(deltaTime, now, rng');
      }
    }

    /** The flying things and the collisions: UFO, bullets and explosions
        move, then one collision pass. */
    method Airborne(deltaTime: real, allowSpawning: bool, now: int, rng: Stream) returns (rng': Stream)
      requires Valid()
      modifies collisionSystem`spatialGrid, scoringSystem, alienGrid.Repr, buildingManager.Repr - {buildingManager}
      modifies ufoSystem`ufo, ufoSystem`gameTime, ufoSystem`nextSpawnTime, ufoSystem.Footprint(), bulletPool.Repr
      modifies bombSystem.bombPool.Repr, playerLifeManager`lastDeathTime, playerLifeManager`isRespawning
      modifies player`lives, player.obj`active, explosionSystem.Repr
      ensures Valid() && bulletPool.Repr == old(bulletPool.Repr) && bombSystem.bombPool.Repr == old(bombSystem.bombPool.Repr)
    {
      rng' := Movers(deltaTime, allowSpawning, rng);
      rng' := CheckCollisions(now, rng');
    }

    /** The UFO, the bullets and the explosions move. */
    method Movers(deltaTime: real, allowSpawning: bool, rng: Stream) returns (rng': Stream)
      requires Valid()
      modifies ufoSystem`ufo, ufoSystem`gameTime, ufoSystem`nextSpawnTime, ufoSystem.Footprint(), bulletPool.Repr
      modifies explosionSystem.Repr
      ensures Valid() && fresh(ufoSystem.Footprint() - old(ufoSystem.Footprint()))
      ensures bulletPool.Repr == old(bulletPool.Repr) && explosionSystem.Repr == old(explosionSystem.Repr)
    {
      rng' := FlyUfo(deltaTime, allowSpawning, rng);
      Trails(deltaTime);
    }

    /** The bullets, then the explosions, move. */
    method Trails(deltaTime: real)
      requires Valid()
      modifies bulletPool.Repr, explosionSystem.Repr
      ensures Valid() && bulletPool.Repr == old(bulletPool.Repr) && explosionSystem.Repr == old(explosionSystem.Repr)
    {
      MoveBullets(deltaTime);
      FadeExplosions(deltaTime);
    }

    /** The things of play alone: the formation and the buildings, then the bombs. */
    method Ground(deltaTime: real, now: int, rng: Stream) returns (rng': Stream)
      requires Valid()
      modifies alienGrid`movementDirection, alienGrid`lastMoveTime, alienGrid`edgeReached, alienGrid.Repr
      modifies buildingManager.Repr, bombSystem`bombDroppers, bombSystem`lastBombCheck, bombSystem.bombPool.Repr
      ensures Valid()
    {
      Structures(deltaTime, now);
      rng' := DropBombs(now, rng);
    }

    /** The formation marches, then the buildings settle. */
    method Structures(deltaTime: real, now: int)
      requires Valid()
      modifies alienGrid`movementDirection, alienGrid`lastMoveTime, alienGrid`edgeReached, alienGrid.Repr
      modifies buildingManager.Repr
      ensures Valid()
    {
      MarchAliens(deltaTime, now);
      SettleBuildings();
    }

    /** The UFO's frame: its clock, a spawn when allowed and due, its flight. */
    method FlyUfo(deltaTime: real, allowSpawning: bool, rng: Stream) returns (rng': Stream)
      requires Valid()
      modifies ufoSystem`ufo, ufoSystem`gameTime, ufoSystem`nextSpawnTime, ufoSystem.Footprint()
      ensures Valid() && fresh(ufoSystem.Footprint() - old(ufoSystem.Footprint()))
      ensures !allowSpawning ==> rng' == rng
      ensures !allowSpawning && old(ufoSystem.ufo).None? ==> ufoSystem.ufo.None?
      ensures ufoSystem.gameTime == old(ufoSystem.gameTime) + deltaTime
      ensures var spawn := allowSpawning && old(ufoSystem.ufo).None? && ufoSystem.gameTime >= old(ufoSystem.nextSpawnTime);
        (!spawn ==> rng' == rng && ufoSystem.nextSpawnTime == old(ufoSystem.nextSpawnTime)) &&
        (spawn ==> rng' == rng.(next := rng.next + 2) &&
                   ufoSystem.nextSpawnTime == ufoSystem.gameTime + SpawnInterval(rng.At(rng.next + 1)))
      ensures old(ufoSystem.ufo).Some? ==>
        var u := old(ufoSystem.ufo).value;
        u.obj.x == old(u.obj.x) + Shift(u.direction, deltaTime) &&
        u.obj.active == !u.PastExit() && ufoSystem.ufo == (if u.obj.active then old(ufoSystem.ufo) else None)
      ensures old(ufoSystem.ufo).None? && allowSpawning && ufoSystem.gameTime >= old(ufoSystem.nextSpawnTime) && ufoSystem.ufo.Some? ==>
        !ufoSystem.ufo.value.isBonus && ufoSystem.ufo.value.obj.active &&
        ufoSystem.ufo.value.direction == SpawnDirection(rng.At(rng.next)) &&
        ufoSystem.ufo.value.obj.x == StartX(ufoSystem.ufo.value.direction) + Shift(ufoSystem.ufo.value.direction, deltaTime)
      ensures old(ufoSystem.ufo).None? && allowSpawning && ufoSystem.gameTime >= old(ufoSystem.nextSpawnTime) && 0.0 <= deltaTime <= 100.0 ==>
        ufoSystem.ufo.Some?
    {
      label Start:
      rng' := ufoSystem.Update(deltaTime, allowSpawning, rng);
      KeepsSeparate@Start(2);
    }

    /** The bullets' frame: each moves, and the spent ones go back to the pool. */
    method MoveBullets(deltaTime: real)
      requires Valid()
      modifies bulletPool.Repr
      ensures Valid() && bulletPool.Repr == old(bulletPool.Repr)
    {
      label Start:
      bulletPool.Update(deltaTime);
      KeepsSeparate@Start(3);
    }

    /** The explosions' frame: the particles decay and the finished bursts go. */
    method FadeExplosions(deltaTime: real)
      requires Valid()
      modifies explosionSystem.Repr
      ensures Valid() && explosionSystem.Repr == old(explosionSystem.Repr)
    {
      label Start:
      explosionSystem.Update(deltaTime);
      KeepsSeparate@Start(5);
    }

    /** The formation's frame: it steps when its move interval has passed. */
    method MarchAliens(deltaTime: real, now: int)
      requires Valid()
      modifies alienGrid`movementDirection, alienGrid`lastMoveTime, alienGrid`edgeReached, alienGrid.Repr
      ensures Valid() && alienGrid.Repr == old(alienGrid.Repr)
    {
      label Start:
      alienGrid.Update(deltaTime, now);
      KeepsSeparate@Start(0);
    }

    /** The buildings' frame: each settles, and the fallen ones leave the row. */
    method SettleBuildings()
      requires Valid()
      modifies buildingManager.Repr
      ensures Valid() && buildingManager.Repr == old(buildingManager.Repr)
    {
      label Start:
      buildingManager.Update();
      KeepsSeparate@Start(1);
    }

    /** The bombs' frame, with the aliens of the formation as the droppers' pool. */
    method DropBombs(now: int, rng: Stream) returns (rng': Stream)
      requires Valid()
      modifies bombSystem`bombDroppers, bombSystem`lastBombCheck, bombSystem.bombPool.Repr
      ensures Valid() && fresh(bombSystem.bombPool.Repr - old(bombSystem.bombPool.Repr))
    {
      label Start:
      var aliens := alienGrid.GetAliens();
      alienGrid.FlatInRepr();
      rng' := StepBombs(bombSystem, aliens, now, rng);
      KeepsSeparate@Start(4);
    }

    /** The cannon's frame: the input system reports `keys` as held, the
        cannon steers by them and, with the shoot key held, fires when its
        cooldown has run out and the pool has a bullet. */
    method MovePlayer(deltaTime: real, now: int, keys: Keys)
      requires Valid()
      modifies player`input, player.obj`x, player`lastShotTime, player`canShoot, bulletPool.Repr
      ensures Valid() && fresh(bulletPool.Repr - old(bulletPool.Repr))
      ensures player.input == Some(keys) && player.obj.x == Steer(old(player.obj.x), keys)
      ensures !keys.shoot ==> player.lastShotTime == old(player.lastShotTime) && player.canShoot == old(player.canShoot)
      ensures keys.shoot && old(player.MayFire(now)) && old(player.PoolHasRoom()) ==>
        player.lastShotTime == now && !player.canShoot &&
        |bulletPool.base.active| == old(|bulletPool.base.active|) + 1 &&
        bulletPool.base.active[..old(|bulletPool.base.active|)] == old(bulletPool.base.active) &&
        var b := bulletPool.base.active[old(|bulletPool.base.active|)];
        b.obj.active && b.obj.x == player.obj.x + PLAYER_WIDTH / 2.0 - 2.0 && b.obj.y == player.obj.y
      ensures keys.shoot && !(old(player.MayFire(now)) && old(player.PoolHasRoom())) ==>
        player.lastShotTime == old(player.lastShotTime) && player.canShoot == old(player.canShoot)
    {
      label Start:
      player.SetInputSystem(keys);
      player.Update(deltaTime, now);
      KeepsSeparate@Start(3);
    }

    /** Every bomb is returned to the pool and no alien is armed. */
    method ClearBombs()
      requires Machinery()
      modifies bombSystem`bombDroppers, bombSystem`lastBombCheck, bombSystem.bombPool.Repr
      ensures Machinery()
      ensures HeldState() == old(HeldState()).(droppers := [], lastBombCheck := 0, bombs := [],
                                     spareBombs := old(bombSystem.bombPool.base.pool) + Reverse(old(bombSystem.bombPool.base.active)))
    {
      bombSystem.Reset();
    }
  }
}
