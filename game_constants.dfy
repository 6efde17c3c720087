// The tuning constants of the game, with the units the simulation uses:
// lengths and speeds in pixels, times in milliseconds.
module GameConstants {

  const CANVAS_WIDTH: real := 800.0
  const CANVAS_HEIGHT: real := 600.0

  const PLAYER_WIDTH: real := 32.0
  const PLAYER_HEIGHT: real := 24.0
  const ALIEN_WIDTH: real := 24.0
  const ALIEN_HEIGHT: real := 18.0
  const BUILDING_WIDTH: real := 48.0
  const BUILDING_HEIGHT: real := 36.0
  const UFO_WIDTH: real := 48.0
  const UFO_HEIGHT: real := 24.0

  const ALIEN_ROWS: nat := 6
  const ALIEN_COLUMNS: nat := 8
  const BUILDING_COUNT: nat := 5

  const PLAYER_SPEED: real := 6.0
  const BULLET_SPEED: real := -10.0
  const BOMB_SPEED: real := 4.0
  const ALIEN_BASE_SPEED: real := 1.0
  const UFO_SPEED: real := 3.0

  const MAX_BULLETS: nat := 10
  const MAX_BOMBS: nat := 5
  const MAX_ALIENS: nat := 55
  const INITIAL_LIVES: int := 3
  const MAX_LEVELS: int := 20

  const SHOOT_COOLDOWN: int := 250
  const UFO_MIN_SPAWN_TIME: real := 30000.0
  const UFO_MAX_SPAWN_TIME: real := 90000.0

  const ALIEN_POINTS: int := 100
  const UFO_POINTS: int := 200
  const BONUS_UFO_POINTS: int := 400
  const LEVEL_BONUS: int := 1000

  /** The nominal frame length, 1000 ms / 60 frames. */
  const MAX_FRAME_TIME: real := 16.67

  const ALIEN_START_X: real := 100.0
  const ALIEN_START_Y: real := 100.0
  const ALIEN_SPACING_X: real := 40.0
  const ALIEN_SPACING_Y: real := 30.0

  const BUILDING_Y: real := 500.0
  const BUILDING_START_X: real := 150.0
  const BUILDING_SPACING_X: real := 100.0

  const PLAYER_Y: real := 550.0
  const PLAYER_START_X: real := 384.0

  const UFO_Y: real := 50.0

  const COLOR_PLAYER := "#00ff00"
  const COLOR_ALIEN := "#ff0000"
  const COLOR_BUILDING := "#0088ff"
  const COLOR_UFO := "#ffff00"
  const COLOR_BULLET := "#00ff00"
  const COLOR_BOMB := "#ff8800"
}
