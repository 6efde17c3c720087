// The mystery ship: a 48x24 box crossing the top of the screen in one
// direction and worth 200 points, or 400 when it is the bonus ship.
module Ufos {
  import opened GameTypes
  import opened GameConstants
  import opened GameObjects

  /** The points a ship is worth. */
  function PointValue(isBonus: bool): (p: int)
    ensures isBonus ==> p == 400
    ensures !isBonus ==> p == 200
  {
    if isBonus then BONUS_UFO_POINTS else UFO_POINTS
  }

  /** Where a ship enters for a direction of travel: just off the left
      edge when heading right, just off the right edge otherwise. */
  function StartX(direction: int): (x: real)
    ensures direction == 1 ==> x + UFO_WIDTH == 0.0
    ensures direction != 1 ==> x - UFO_WIDTH == CANVAS_WIDTH
  {
    if direction == 1 then -UFO_WIDTH else CANVAS_WIDTH + UFO_WIDTH
  }

  /** The horizontal distance covered in `deltaTime` milliseconds:
      UFO_SPEED pixels per nominal 16.67 ms frame. */
  function Shift(direction: int, deltaTime: real): real {
    (direction as real) * UFO_SPEED * deltaTime / 16.67
  }

  /** Beyond the far edge for the direction of travel, 50 pixels out. */
  predicate Beyond(direction: int, x: real) {
    (direction == 1 && x > CANVAS_WIDTH + 50.0) || (direction == -1 && x < -50.0)
  }

  /** A ship comes in on the near side of its exit, in either direction. */
  lemma {:induction false} EntersInside(direction: int)
    requires direction == 1 || direction == -1
    ensures !Beyond(direction, StartX(direction))
    ensures direction == 1 ==> StartX(direction) < 0.0
    ensures direction == -1 ==> StartX(direction) > CANVAS_WIDTH
  {
  }

  /** A ship moves towards its exit: right when heading right, left otherwise. */
  lemma {:induction false} ShiftTowardsExit(direction: int, deltaTime: real)
    requires deltaTime > 0.0
    ensures direction == 1 ==> Shift(direction, deltaTime) > 0.0
    ensures direction == -1 ==> Shift(direction, deltaTime) < 0.0
  {
    var d := deltaTime / 16.67;
    assert d > 0.0;
    assert Shift(direction, deltaTime) == (direction as real) * UFO_SPEED * d;
  }

  /** No frame of at most 100 ms (the longest the game loop passes on)
      carries a ship that has just entered past its exit. */
  lemma {:induction false} NoExitOnFirstFrame(direction: int, deltaTime: real)
    requires direction == 1 || direction == -1
    requires 0.0 <= deltaTime <= 100.0
    ensures !Beyond(direction, StartX(direction) + Shift(direction, deltaTime))
  {
    var d := deltaTime / 16.67;
    assert 0.0 <= d <= 6.0 by {
      assert d * 16.67 == deltaTime;
    }
    assert Shift(direction, deltaTime) == (direction as real) * UFO_SPEED * d;
  }

  class Ufo {
    const obj: GameObject
    var direction: int
    const pointValue: int
    const isBonus: bool

    constructor (x: real, y: real, isBonus: bool)
      ensures fresh(obj) && obj.x == x && obj.y == y
      ensures obj.width == UFO_WIDTH && obj.height == UFO_HEIGHT && obj.kind == UfoKind
      ensures obj.active && obj.color == COLOR_UFO && direction == 1
      ensures this.isBonus == isBonus && pointValue == PointValue(isBonus)
    {
      obj := new GameObject(x, y, UFO_WIDTH, UFO_HEIGHT, UfoKind);
      direction := 1;
      this.isBonus := isBonus;
      pointValue := if isBonus then BONUS_UFO_POINTS else UFO_POINTS;
      new;
      obj.SetColor(COLOR_UFO);
    }

    /** Beyond the far edge for the direction of travel. */
    predicate PastExit()
      reads this, obj
    {
      Beyond(direction, obj.x)
    }

    /** Moves by Shift(direction, deltaTime), and stops being active once
        past its exit edge. */
    method Update(deltaTime: real)
      modifies obj`x, obj`active
      ensures obj.x == old(obj.x) + Shift(direction, deltaTime)
      ensures obj.active == (old(obj.active) && !PastExit())
    {
      obj.x := obj.x + (direction as real) * UFO_SPEED * deltaTime / 16.67;
      if PastExit() {
        obj.active := false;
      }
    }

    method SetDirection(direction: int)
      modifies this`direction
      ensures this.direction == direction
    {
      this.direction := direction;
    }

    /** Enters just off the left edge, heading right. */
    method SpawnFromLeft()
      modifies obj`x, obj`y, obj`active, this`direction
      ensures direction == 1 && obj.x == StartX(1) && obj.y == UFO_Y && obj.active
    {
      obj.x := -UFO_WIDTH;
      obj.y := UFO_Y;
      direction := 1;
      obj.active := true;
    }

    /** Enters just off the right edge, heading left. */
    method SpawnFromRight()
      modifies obj`x, obj`y, obj`active, this`direction
      ensures direction == -1 && obj.x == StartX(-1) && obj.y == UFO_Y && obj.active
    {
      obj.x := CANVAS_WIDTH + UFO_WIDTH;
      obj.y := UFO_Y;
      direction := -1;
      obj.active := true;
    }

    method Destroy()
      modifies obj`active
      ensures !obj.active
    {
      obj.active := false;
    }
  }
}
