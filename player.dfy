// The player's cannon: a 32x24 box on the bottom row that slides six pixels
// per key press, fires from a bullet pool behind a 250 ms cooldown and
// carries the remaining lives.
module Players {
  import opened GameTypes
  import opened GameConstants
  import opened GameObjects
  import opened Bullets
  import opened BulletPools

  /** The keys the input system reports as held during one frame. */
  datatype Keys = Keys(left: bool, right: bool, shoot: bool)

  /** The right-most x a player box may take. */
  const PLAYER_MAX_X: real := CANVAS_WIDTH - PLAYER_WIDTH

  /** One step left, stopped at the left edge. */
  function StepLeft(x: real): (r: real)
    ensures 0.0 <= r
    ensures x - PLAYER_SPEED >= 0.0 ==> r == x - PLAYER_SPEED
    ensures x - PLAYER_SPEED < 0.0 ==> r == 0.0
  {
    if x - PLAYER_SPEED < 0.0 then 0.0 else x - PLAYER_SPEED
  }

  /** One step right, stopped where the box meets the right edge. */
  function StepRight(x: real): (r: real)
    ensures r <= PLAYER_MAX_X
    ensures x + PLAYER_SPEED <= PLAYER_MAX_X ==> r == x + PLAYER_SPEED
    ensures x + PLAYER_SPEED > PLAYER_MAX_X ==> r == PLAYER_MAX_X
  {
    if x + PLAYER_SPEED > PLAYER_MAX_X then PLAYER_MAX_X else x + PLAYER_SPEED
  }

  /** Where one frame of input leaves the cannon: left is applied before right. */
  function Steer(x: real, keys: Keys): real {
    var afterLeft := if keys.left then StepLeft(x) else x;
    if keys.right then StepRight(afterLeft) else afterLeft
  }

  /** A cannon on screen stays on screen whatever keys are held. */
  lemma {:induction false} SteerStaysOnScreen(x: real, keys: Keys)
    requires 0.0 <= x <= PLAYER_MAX_X
    ensures 0.0 <= Steer(x, keys) <= PLAYER_MAX_X
  {
  }

  /** Holding both keys moves the cannon back to where it was, except at an edge. */
  lemma {:induction false} BothKeysCancel(x: real)
    requires PLAYER_SPEED <= x <= PLAYER_MAX_X
    ensures Steer(x, Keys(true, true, false)) == x
  {
  }

  /** Lives after one hit: one fewer, never below zero. */
  function LivesAfterHit(lives: int): (r: int)
    ensures r >= 0
    ensures lives > 0 ==> r == lives - 1
    ensures lives <= 0 ==> r == 0
  {
    if lives - 1 < 0 then 0 else lives - 1
  }

  /** Lives after `hits` hits in a row. */
  function LivesAfterHits(lives: int, hits: nat): int
    decreases hits
  {
    if hits == 0 then lives else LivesAfterHits(LivesAfterHit(lives), hits - 1)
  }

  /** Each hit costs exactly one life until none are left. */
  lemma {:induction false} LivesAfterHitsCount(lives: int, hits: nat)
    requires lives >= 0
    ensures LivesAfterHits(lives, hits) == if hits <= lives then lives - hits else 0
    decreases hits
  {
    if hits > 0 {
      LivesAfterHitsCount(LivesAfterHit(lives), hits - 1);
    }
  }

  /** A fresh player survives two hits and is out of lives after the third. */
  lemma {:induction false} ThreeHitsEndTheGame()
    ensures LivesAfterHits(INITIAL_LIVES, 2) > 0
    ensures LivesAfterHits(INITIAL_LIVES, 3) == 0
  {
    LivesAfterHitsCount(INITIAL_LIVES, 2);
    LivesAfterHitsCount(INITIAL_LIVES, 3);
  }

  /** The requested lives, clamped at zero. */
  function ClampLives(lives: int): (r: int)
    ensures r >= 0 && (lives >= 0 ==> r == lives) && (lives < 0 ==> r == 0)
  {
    if lives < 0 then 0 else lives
  }

  class Player {
    const obj: GameObject
    const speed: real
    var canShoot: bool
    const shootCooldown: int
    var lastShotTime: int
    var lives: int
    var bulletPool: Option<BulletPool>
    var input: Option<Keys>

    ghost predicate Valid()
      reads this, obj
    {
      lives >= 0 && obj.width == PLAYER_WIDTH && obj.height == PLAYER_HEIGHT && obj.kind == PlayerKind &&
      speed == PLAYER_SPEED && shootCooldown == SHOOT_COOLDOWN
    }

    /** The bullet pool, when set, is sound and shares no state with the cannon. */
    ghost predicate PoolReady()
      reads this, if bulletPool.Some? then {bulletPool.value, bulletPool.value.base} else {}
    {
      bulletPool.Some? ==>
        bulletPool.value.Valid() && this !in bulletPool.value.Repr && obj !in bulletPool.value.Repr
    }

    constructor (x: real, y: real)
      ensures Valid() && PoolReady() && fresh(obj)
      ensures obj.x == x && obj.y == y && obj.active && obj.color == COLOR_PLAYER
      ensures canShoot && lastShotTime == 0 && lives == INITIAL_LIVES
      ensures bulletPool.None? && input.None?
    {
      obj := new GameObject(x, y, PLAYER_WIDTH, PLAYER_HEIGHT, PlayerKind);
      speed := PLAYER_SPEED;
      canShoot := true;
      shootCooldown := SHOOT_COOLDOWN;
      lastShotTime := 0;
      lives := INITIAL_LIVES;
      bulletPool := None;
      input := None;
      new;
      obj.SetColor(COLOR_PLAYER);
    }

    method SetBulletPool(pool: BulletPool)
      requires pool.Valid() && this !in pool.Repr && obj !in pool.Repr
      modifies this`bulletPool
      ensures bulletPool == Some(pool) && PoolReady()
    {
      bulletPool := Some(pool);
    }

    method SetInputSystem(keys: Keys)
      modifies this`input
      ensures input == Some(keys)
    {
      input := Some(keys);
    }

    /** One frame: without an input system nothing happens; otherwise the
        held keys steer the cannon and the shoot key tries to fire. */
    method Update(deltaTime: real, now: int)
      requires Valid() && PoolReady()
      modifies obj`x, this`lastShotTime, this`canShoot
      modifies if bulletPool.Some? then bulletPool.value.Repr else {}
      ensures Valid() && PoolReady()
      ensures bulletPool.Some? ==> fresh(bulletPool.value.Repr - old(bulletPool.value.Repr))
      ensures input.None? ==> obj.x == old(obj.x) && lastShotTime == old(lastShotTime) && canShoot == old(canShoot)
      ensures input.Some? ==> obj.x == Steer(old(obj.x), input.value)
      ensures input.Some? && !input.value.shoot ==> lastShotTime == old(lastShotTime) && canShoot == old(canShoot)
      ensures input.Some? && input.value.shoot && old(MayFire(now)) && old(PoolHasRoom()) ==>
        lastShotTime == now && !canShoot &&
        |bulletPool.value.base.active| == old(|bulletPool.value.base.active|) + 1 &&
        bulletPool.value.base.active[..old(|bulletPool.value.base.active|)] == old(bulletPool.value.base.active) &&
        var b := bulletPool.value.base.active[old(|bulletPool.value.base.active|)];
        b.obj.active && b.obj.x == obj.x + PLAYER_WIDTH / 2.0 - 2.0 && b.obj.y == obj.y
      ensures input.Some? && input.value.shoot && !(old(MayFire(now)) && old(PoolHasRoom())) ==>
        lastShotTime == old(lastShotTime) && canShoot == old(canShoot)
      ensures obj.y == old(obj.y) && obj.active == old(obj.active)
    {
      if input.None? {
        return;
      }
      var keys := input.value;
      if keys.left {
        MoveLeft();
      }
      if keys.right {
        MoveRight();
      }
      if keys.shoot {
        var shot := Shoot(now);
      }
    }

    method MoveLeft()
      requires Valid()
      modifies obj`x
      ensures obj.x == StepLeft(old(obj.x))
    {
      obj.x := obj.x - speed;
      obj.x := if obj.x < 0.0 then 0.0 else obj.x;
    }

    method MoveRight()
      requires Valid()
      modifies obj`x
      ensures obj.x == StepRight(old(obj.x))
    {
      obj.x := obj.x + speed;
      obj.x := if CANVAS_WIDTH - obj.width < obj.x then CANVAS_WIDTH - obj.width else obj.x;
    }

    /** The cooldown has run out, the cannon is armed and there is a pool to fire from. */
    predicate MayFire(now: int)
      reads this
    {
      now - lastShotTime >= shootCooldown && canShoot && bulletPool.Some?
    }

    /** The pool can hand out a bullet: a free one, or room for a new one. */
    ghost predicate PoolHasRoom()
      reads this, if bulletPool.Some? then {bulletPool.value.base} else {}
    {
      bulletPool.Some? &&
      (|bulletPool.value.base.pool| > 0 || |bulletPool.value.base.active| < MAX_BULLETS)
    }

    /** Fires a bullet from the centre of the cannon's top edge when allowed
        and the pool has one; a shot disarms the cannon and records the time. */
    method Shoot(now: int) returns (shot: Option<Bullet>)
      requires Valid() && PoolReady()
      modifies this`lastShotTime, this`canShoot
      modifies if bulletPool.Some? then bulletPool.value.Repr else {}
      ensures Valid() && PoolReady()
      ensures bulletPool.Some? ==> fresh(bulletPool.value.Repr - old(bulletPool.value.Repr))
      ensures shot.Some? <==> old(MayFire(now)) && old(PoolHasRoom())
      ensures shot.Some? ==>
        lastShotTime == now && !canShoot &&
        shot.value.obj.x == obj.x + PLAYER_WIDTH / 2.0 - 2.0 && shot.value.obj.y == obj.y &&
        shot.value.obj.active &&
        bulletPool.value.base.active == old(bulletPool.value.base.active) + [shot.value]
      ensures shot.None? ==> lastShotTime == old(lastShotTime) && canShoot == old(canShoot)
      ensures shot.None? && bulletPool.Some? ==>
        bulletPool.value.base.active == old(bulletPool.value.base.active) &&
        bulletPool.value.base.pool == old(bulletPool.value.base.pool)
    {
      shot := None;
      if now - lastShotTime >= shootCooldown && canShoot && bulletPool.Some? {
        var pool := bulletPool.value;
        shot := pool.CreateBullet(obj.x + obj.width / 2.0 - 2.0, obj.y);
        if shot.Some? {
          lastShotTime := now;
          canShoot := false;
        }
      }
    }

    /** The delayed callback that re-arms the cannon one cooldown after a shot. */
    method CooldownElapsed()
      modifies this`canShoot
      ensures canShoot
    {
      canShoot := true;
    }

    function GetLives(): int
      reads this
    {
      lives
    }

    /** A hit costs one life (never below zero) and takes the cannon off the field. */
    method LoseLife()
      requires Valid()
      modifies this`lives, obj`active
      ensures Valid()
      ensures lives == LivesAfterHit(old(lives)) && !obj.active
    {
      lives := if lives - 1 < 0 then 0 else lives - 1;
      obj.active := false;
    }

    /** Back to a full complement of lives, active and armed, at (x, y). */
    method Reset(x: real, y: real)
      requires Valid()
      modifies obj`x, obj`y, obj`active, this`lives, this`canShoot, this`lastShotTime
      ensures Valid()
      ensures obj.x == x && obj.y == y && lives == INITIAL_LIVES && obj.active
      ensures canShoot && lastShotTime == 0
    {
      obj.x := x;
      obj.y := y;
      lives := INITIAL_LIVES;
      obj.active := true;
      canShoot := true;
      lastShotTime := 0;
    }

    /** With lives left, the cannon returns armed to its start position;
        with none, nothing changes. */
    method Respawn()
      requires Valid()
      modifies obj`x, obj`y, obj`active, this`canShoot, this`lastShotTime
      ensures Valid()
      ensures old(lives) > 0 ==>
        obj.active && canShoot && lastShotTime == 0 && obj.x == PLAYER_START_X && obj.y == PLAYER_Y
      ensures old(lives) <= 0 ==>
        obj.active == old(obj.active) && canShoot == old(canShoot) && lastShotTime == old(lastShotTime) &&
        obj.x == old(obj.x) && obj.y == old(obj.y)
    {
      if lives > 0 {
        obj.active := true;
        canShoot := true;
        lastShotTime := 0;
        obj.x := PLAYER_START_X;
        obj.y := PLAYER_Y;
      }
    }

    predicate IsAlive()
      reads this
    {
      lives > 0
    }

    /** Sets the lives, clamped at zero; zero takes the cannon off the field,
        and a positive count leaves the active flag as it was. */
    method SetLives(lives: int)
      requires Valid()
      modifies this`lives, obj`active
      ensures Valid()
      ensures this.lives == ClampLives(lives)
      ensures obj.active == (old(obj.active) && this.lives != 0)
    {
      this.lives := if lives < 0 then 0 else lives;
      if this.lives == 0 {
        obj.active := false;
      }
    }

    method Destroy()
      modifies obj`active
      ensures !obj.active
    {
      obj.active := false;
    }
  }
}
