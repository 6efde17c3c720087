// Value types shared by every part of the game: the top-level states, the
// entity kinds, axis-aligned rectangles and an Option wrapper.
module GameTypes {

  datatype Option<T> = None | Some(value: T)

  /** The six top-level states of the game. */
  datatype GameState = Menu | Playing | Paused | LevelComplete | GameOver | Victory

  /** The `type` tag every entity carries (a string in the original). */
  datatype Kind = PlayerKind | AlienKind | BulletKind | BombKind | BuildingKind | UfoKind

  /** An axis-aligned box: top-left corner plus extent. */
  datatype Rect = Rect(x: real, y: real, width: real, height: real)

  // Render layers (only their numeric order matters to the simulation).
  const LAYER_BACKGROUND: int := 0
  const LAYER_PROJECTILES: int := 5
}
