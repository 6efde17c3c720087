// The spawner for the mystery ship: a single slot that holds at most one
// ship, a game clock advanced by the frames' deltas, and the time of the
// next automatic appearance, drawn between 30 and 90 seconds ahead.
module UfoSystems {
  import opened GameTypes
  import opened GameConstants
  import opened GameObjects
  import opened RandomSource
  import opened Ufos

  /** The wait before the next automatic appearance, for one draw of Math.random(). */
  function SpawnInterval(r: Draw): (t: real)
    ensures UFO_MIN_SPAWN_TIME <= t < UFO_MAX_SPAWN_TIME
  {
    UFO_MIN_SPAWN_TIME + r * (UFO_MAX_SPAWN_TIME - UFO_MIN_SPAWN_TIME)
  }

  /** The direction a new ship takes for one draw: right below one half, left otherwise. */
  function SpawnDirection(r: Draw): (d: int)
    ensures d == 1 <==> r < 0.5
    ensures d == 1 || d == -1
  {
    if r < 0.5 then 1 else -1
  }

  /** A later draw never brings the next appearance earlier. */
  lemma {:induction false} SpawnIntervalMonotone(r1: Draw, r2: Draw)
    requires r1 <= r2
    ensures SpawnInterval(r1) <= SpawnInterval(r2)
  {
  }

  class UfoSystem {
    var ufo: Option<Ufo>
    var nextSpawnTime: real
    var gameTime: real

    /** The slot never holds a ship that is no longer in play. */
    ghost predicate Valid()
      reads this, Footprint()
    {
      ufo.Some? ==> ufo.value.obj.active
    }

    /** The record of the ship in the slot, if any. */
    function Footprint(): set<GameObject>
      reads this`ufo
    {
      if ufo.Some? then {ufo.value.obj} else {}
    }

    /** The slot starts empty, with the first appearance drawn from `r`. */
    constructor (r: Draw)
      ensures Valid() && ufo.None? && gameTime == 0.0 && nextSpawnTime == SpawnInterval(r)
    {
      ufo := None;
      gameTime := 0.0;
      nextSpawnTime := SpawnInterval(r);
    }

    /** A ship is in the slot and in play. */
    predicate IsActive()
      reads this`ufo, Footprint()
    {
      ufo.Some? && ufo.value.obj.active
    }

    function GetUFO(): Option<Ufo>
      reads this
    {
      ufo
    }

    /** The ship's box while it is in play, and nothing otherwise. */
    function GetBounds(): (b: Option<Rect>)
      reads this, Footprint()
      ensures b.Some? <==> IsActive()
      ensures b.Some? ==> b.value == ufo.value.obj.Bounds()
    {
      if !IsActive() then None else Some(ufo.value.obj.Bounds())
    }

    /** Time for an automatic appearance: no ship in play and the clock has reached the mark. */
    predicate ShouldSpawn()
      reads this, Footprint()
    {
      !IsActive() && gameTime >= nextSpawnTime
    }

    /** Draws the next appearance time from `r`. */
    method CalculateNextSpawnTime(r: Draw)
      modifies this`nextSpawnTime
      ensures nextSpawnTime == gameTime + SpawnInterval(r)
      ensures gameTime + UFO_MIN_SPAWN_TIME <= nextSpawnTime < gameTime + UFO_MAX_SPAWN_TIME
    {
      var randomInterval := UFO_MIN_SPAWN_TIME + r * (UFO_MAX_SPAWN_TIME - UFO_MIN_SPAWN_TIME);
      nextSpawnTime := gameTime + randomInterval;
    }

    /** With a ship in play nothing happens.  Otherwise a new ship, bonus or
        not as asked, enters from the side the first draw picks, and the
        next appearance is drawn from the second. */
    method SpawnUFO(isBonus: bool, rng: Stream) returns (rng': Stream)
      requires Valid()
      modifies this`ufo, this`nextSpawnTime
      ensures Valid()
      ensures old(IsActive()) ==> ufo == old(ufo) && nextSpawnTime == old(nextSpawnTime) && rng' == rng
      ensures !old(IsActive()) ==>
        ufo.Some? && fresh(ufo.value) && fresh(ufo.value.obj) &&
        ufo.value.isBonus == isBonus && ufo.value.pointValue == PointValue(isBonus) &&
        ufo.value.direction == SpawnDirection(rng.At(rng.next)) &&
        ufo.value.obj.x == StartX(ufo.value.direction) && ufo.value.obj.y == UFO_Y &&
        ufo.value.obj.active && ufo.value.obj.kind == UfoKind && !ufo.value.PastExit() &&
        nextSpawnTime == gameTime + SpawnInterval(rng.At(rng.next + 1)) &&
        rng' == rng.(next := rng.next + 2)
    {
      rng' := rng;
      if ufo.Some? && ufo.value.obj.active {
        return;
      }
      var u := new Ufo(0.0, UFO_Y, isBonus);
      var (r, after) := rng'.Take();
      rng' := after;
      var direction := if r < 0.5 then 1 else -1;
      if direction == 1 {
        u.SpawnFromLeft();
      } else {
        u.SpawnFromRight();
      }
      EntersInside(direction);
      ufo := Some(u);
      var (r2, after2) := rng'.Take();
      rng' := after2;
      CalculateNextSpawnTime(r2);
    }

    method SpawnBonusUFO(rng: Stream) returns (rng': Stream)
      requires Valid()
      modifies this`ufo, this`nextSpawnTime
      ensures Valid()
      ensures old(IsActive()) ==> ufo == old(ufo) && nextSpawnTime == old(nextSpawnTime) && rng' == rng
      ensures !old(IsActive()) ==>
        ufo.Some? && fresh(ufo.value) && fresh(ufo.value.obj) && ufo.value.isBonus && ufo.value.pointValue == BONUS_UFO_POINTS &&
        ufo.value.obj.active && !ufo.value.PastExit() &&
        nextSpawnTime == gameTime + SpawnInterval(rng.At(rng.next + 1)) &&
        rng' == rng.(next := rng.next + 2)
    {
      rng' := SpawnUFO(true, rng);
    }

    /** A ship in play is taken out of play and out of the slot, and its
        points are returned; with no ship in play the result is 0 and
        nothing changes. */
    method DestroyUFO() returns (points: int)
      requires Valid()
      modifies this`ufo, Footprint()
      ensures Valid() && ufo.None?
      ensures old(IsActive()) ==> points == old(ufo.value.pointValue) && !old(ufo.value.obj).active
      ensures !old(IsActive()) ==> points == 0 && ufo == old(ufo)
    {
      if ufo.None? || !ufo.value.obj.active {
        return 0;
      }
      var u := ufo.value;
      points := u.pointValue;
      u.Destroy();
      ufo := None;
    }

    /** The ship in play, if any, moves; a ship that passes its exit leaves the slot in the same frame. */
    method MoveUFO(deltaTime: real)
      requires Valid()
      modifies Footprint()`x, Footprint()`active
      modifies this`ufo
      ensures Valid()
      ensures old(ufo).None? ==> ufo.None?
      ensures old(ufo).Some? ==>
        var u := old(ufo).value;
        u.obj.x == old(u.obj.x) + Shift(u.direction, deltaTime) &&
        u.obj.active == !u.PastExit() &&
        ufo == (if u.obj.active then old(ufo) else None)
    {
      if ufo.Some? && ufo.value.obj.active {
        var u := ufo.value;
        u.Update(deltaTime);
        if !u.obj.active {
          ufo := None;
        }
      }
    }

    /** One frame: the clock advances by `deltaTime`; when spawning is
        allowed and due, a ship appears; then the ship in play moves, and
        leaves the slot if it passed its exit. */
    method Update(deltaTime: real, allowSpawning: bool, rng: Stream) returns (rng': Stream)
      requires Valid()
      modifies this`ufo, this`gameTime, this`nextSpawnTime, Footprint()`x, Footprint()`active
      ensures Valid() && gameTime == old(gameTime) + deltaTime && fresh(Footprint() - old(Footprint()))
      ensures var spawn := allowSpawning && old(ufo).None? && gameTime >= old(nextSpawnTime);
        (!spawn ==> rng' == rng && nextSpawnTime == old(nextSpawnTime)) &&
        (spawn ==> rng' == rng.(next := rng.next + 2) && nextSpawnTime == gameTime + SpawnInterval(rng.At(rng.next + 1)))
      ensures old(ufo).Some? ==>
        var u := old(ufo).value;
        u.obj.x == old(u.obj.x) + Shift(u.direction, deltaTime) &&
        u.obj.active == !u.PastExit() && ufo == (if u.obj.active then old(ufo) else None)
      ensures old(ufo).None? && !(allowSpawning && gameTime >= old(nextSpawnTime)) ==> ufo.None?
      ensures old(ufo).None? && allowSpawning && gameTime >= old(nextSpawnTime) && ufo.Some? ==>
        fresh(ufo.value) && !ufo.value.isBonus && ufo.value.obj.active &&
        ufo.value.direction == SpawnDirection(rng.At(rng.next)) &&
        ufo.value.obj.x == StartX(ufo.value.direction) + Shift(ufo.value.direction, deltaTime)
      ensures old(ufo).None? && allowSpawning && gameTime >= old(nextSpawnTime) && 0.0 <= deltaTime <= 100.0 ==>
        ufo.Some?
    {
      gameTime := gameTime + deltaTime;
      rng' := rng;
      if allowSpawning && ShouldSpawn() {
        rng' := SpawnUFO(false, rng);
        if 0.0 <= deltaTime <= 100.0 {
          NoExitOnFirstFrame(ufo.value.direction, deltaTime);
        }
      }
      MoveUFO(deltaTime);
    }

    /** Empties the slot and restarts the clock, with the next appearance drawn afresh. */
    method Reset(rng: Stream) returns (rng': Stream)
      modifies this`ufo, this`gameTime, this`nextSpawnTime
      ensures Valid() && ufo.None? && gameTime == 0.0
      ensures nextSpawnTime == SpawnInterval(rng.At(rng.next)) && rng' == rng.(next := rng.next + 1)
    {
      ufo := None;
      nextSpawnTime := 0.0;
      gameTime := 0.0;
      var (r, after) := rng.Take();
      rng' := after;
      CalculateNextSpawnTime(r);
    }
  }
}
