// A member of the invading formation: a 24x18 box that remembers its grid
// row and column and is moved only by the formation controller.
module Aliens {
  import opened GameTypes
  import opened GameConstants
  import opened GameObjects

  class Alien {
    const obj: GameObject
    const row: int
    const column: int
    var direction: int

    constructor (x: real, y: real, row: int, column: int)
      ensures fresh(obj) && obj.x == x && obj.y == y
      ensures obj.width == ALIEN_WIDTH && obj.height == ALIEN_HEIGHT && obj.kind == AlienKind
      ensures obj.active && obj.color == COLOR_ALIEN && obj.vx == 0.0 && obj.vy == 0.0
      ensures this.row == row && this.column == column && direction == 1
    {
      obj := new GameObject(x, y, ALIEN_WIDTH, ALIEN_HEIGHT, AlienKind);
      this.row := row;
      this.column := column;
      direction := 1;
      new;
      obj.SetColor(COLOR_ALIEN);
    }

    method SetDirection(direction: int)
      modifies this`direction
      ensures this.direction == direction
    {
      this.direction := direction;
    }

    method SetPosition(x: real, y: real)
      modifies obj`x, obj`y
      ensures obj.x == x && obj.y == y
    {
      obj.SetPosition(x, y);
    }

    /** Only the horizontal coordinate changes. */
    method MoveLeft(speed: real)
      modifies obj`x
      ensures obj.x == old(obj.x) - speed
    {
      obj.x := obj.x - speed;
    }

    method MoveRight(speed: real)
      modifies obj`x
      ensures obj.x == old(obj.x) + speed
    {
      obj.x := obj.x + speed;
    }

    /** Only the vertical coordinate changes. */
    method MoveDown(distance: real)
      modifies obj`y
      ensures obj.y == old(obj.y) + distance
    {
      obj.y := obj.y + distance;
    }

    method Destroy()
      modifies obj`active
      ensures !obj.active
    {
      obj.Destroy();
    }
  }
}
