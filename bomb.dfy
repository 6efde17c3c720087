// A bomb dropped by an alien: a 4x8 projectile falling 4 pixels per update.
module Bombs {
  import opened GameTypes
  import opened GameConstants
  import opened GameObjects

  /** Below this line a bomb has left the screen. */
  const BOMB_EXIT_Y: real := CANVAS_HEIGHT + 20.0

  class Bomb {
    const obj: GameObject

    constructor (x: real, y: real)
      ensures fresh(obj) && obj.x == x && obj.y == y
      ensures obj.width == 4.0 && obj.height == 8.0 && obj.kind == BombKind
      ensures obj.active && obj.color == COLOR_BOMB && obj.layer == LAYER_PROJECTILES
    {
      obj := new GameObject(x, y, 4.0, 8.0, BombKind);
      new;
      obj.SetColor(COLOR_BOMB);
      obj.layer := LAYER_PROJECTILES;
    }

    /** Falls one step; a bomb that ends below the screen is no longer active.
        The fall happens whether or not the bomb was active. */
    method Update(deltaTime: real)
      modifies obj`y, obj`active
      ensures obj.y == old(obj.y) + BOMB_SPEED
      ensures obj.active == (old(obj.active) && obj.y <= BOMB_EXIT_Y)
    {
      obj.y := obj.y + BOMB_SPEED;
      if obj.y > BOMB_EXIT_Y {
        Destroy();
      }
    }

    method Destroy()
      modifies obj`active
      ensures !obj.active
    {
      obj.Destroy();
    }
  }
}
