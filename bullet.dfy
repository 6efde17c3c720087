// A player's shot: a 4x12 projectile rising 10 pixels per update.
module Bullets {
  import opened GameTypes
  import opened GameConstants
  import opened GameObjects

  /** Above this line a bullet has left the screen. */
  const BULLET_EXIT_Y: real := -20.0

  class Bullet {
    const obj: GameObject

    constructor (x: real, y: real)
      ensures fresh(obj) && obj.x == x && obj.y == y
      ensures obj.width == 4.0 && obj.height == 12.0 && obj.kind == BulletKind
      ensures obj.active && obj.color == COLOR_BULLET
    {
      obj := new GameObject(x, y, 4.0, 12.0, BulletKind);
      new;
      obj.SetColor(COLOR_BULLET);
    }

    /** Rises one step; a bullet that ends above the screen is no longer
        active.  The rise happens whether or not the bullet was active. */
    method Update(deltaTime: real)
      modifies obj`y, obj`active
      ensures obj.y == old(obj.y) + BULLET_SPEED
      ensures obj.active == (old(obj.active) && obj.y >= BULLET_EXIT_Y)
    {
      obj.y := obj.y + BULLET_SPEED;
      if obj.y < BULLET_EXIT_Y {
        Destroy();
      }
    }

    method Destroy()
      modifies obj`active
      ensures !obj.active
    {
      obj.Destroy();
    }
  }
}
