// Death and respawn bookkeeping for the player: a hit starts a respawn
// period, the delayed respawn brings the cannon back while lives remain,
// and the progress of the wait is reported as a fraction.
module PlayerLives {
  import opened GameConstants
  import opened GameObjects
  import opened Players

  /** The default wait between a death and the respawn, in milliseconds. */
  const RESPAWN_DELAY: int := 2000

  /** How far a respawn wait has got: complete when not waiting, else the
      elapsed share of the delay, capped at one. */
  function RespawnProgress(respawning: bool, elapsed: int, delay: int): (r: real)
    requires delay > 0
    ensures !respawning ==> r == 1.0
    ensures respawning && elapsed >= delay ==> r == 1.0
    ensures respawning && elapsed < delay ==> r < 1.0 && r * (delay as real) == elapsed as real
    ensures elapsed >= 0 ==> 0.0 <= r <= 1.0
  {
    if !respawning then 1.0
    else
      var fraction := (elapsed as real) / (delay as real);
      if fraction < 1.0 then fraction else 1.0
  }

  /** Progress only grows as time passes during one wait. */
  lemma {:induction false} RespawnProgressMonotone(respawning: bool, e1: int, e2: int, delay: int)
    requires delay > 0 && e1 <= e2
    ensures RespawnProgress(respawning, e1, delay) <= RespawnProgress(respawning, e2, delay)
  {
    if respawning && e2 < delay {
      assert (e1 as real) / (delay as real) <= (e2 as real) / (delay as real) by {
        var d := delay as real;
        assert (e1 as real) / d * d == e1 as real;
        assert (e2 as real) / d * d == e2 as real;
      }
    }
  }

  class PlayerLifeManager {
    const player: Player
    var respawnDelay: int
    var lastDeathTime: int
    var isRespawning: bool

    ghost predicate Valid()
      reads this, player, player.obj
    {
      player.Valid() && respawnDelay > 0
    }

    constructor (player: Player)
      requires player.Valid()
      ensures Valid() && this.player == player
      ensures respawnDelay == RESPAWN_DELAY && lastDeathTime == 0 && !isRespawning
    {
      this.player := player;
      respawnDelay := RESPAWN_DELAY;
      lastDeathTime := 0;
      isRespawning := false;
    }

    /** A hit outside a respawn wait costs a life and starts a wait; the
        result says whether the delayed respawn is scheduled, which happens
        only while lives remain.  During a wait a hit changes nothing. */
    method HandlePlayerDeath(now: int) returns (scheduled: bool)
      requires Valid()
      modifies this`lastDeathTime, this`isRespawning, player`lives, player.obj`active
      ensures Valid()
      ensures old(isRespawning) ==>
        !scheduled && isRespawning && lastDeathTime == old(lastDeathTime) &&
        player.lives == old(player.lives) && player.obj.active == old(player.obj.active)
      ensures !old(isRespawning) ==>
        isRespawning && lastDeathTime == now &&
        player.lives == LivesAfterHit(old(player.lives)) && !player.obj.active &&
        scheduled == (player.lives > 0)
    {
      scheduled := false;
      if isRespawning {
        return;
      }
      lastDeathTime := now;
      isRespawning := true;
      player.LoseLife();
      if player.GetLives() > 0 {
        scheduled := true;
      }
    }

    /** The delayed respawn: it always ends the wait, and brings the cannon
        back only while lives remain. */
    method RespawnPlayer()
      requires Valid()
      modifies this`isRespawning, player.obj`x, player.obj`y, player.obj`active, player`canShoot, player`lastShotTime
      ensures Valid() && !isRespawning
      ensures old(player.lives) > 0 ==>
        player.obj.active && player.canShoot && player.lastShotTime == 0 &&
        player.obj.x == PLAYER_START_X && player.obj.y == PLAYER_Y
      ensures old(player.lives) <= 0 ==>
        player.obj.active == old(player.obj.active) && player.obj.x == old(player.obj.x) &&
        player.obj.y == old(player.obj.y) && player.canShoot == old(player.canShoot) &&
        player.lastShotTime == old(player.lastShotTime)
    {
      if player.GetLives() > 0 {
        player.Respawn();
        isRespawning := false;
      } else {
        isRespawning := false;
      }
    }

    predicate IsPlayerRespawning()
      reads this
    {
      isRespawning
    }

    function GetRemainingLives(): int
      reads this, player
    {
      player.GetLives()
    }

    /** Lives remain and the cannon is off the field. */
    predicate CanRespawn()
      reads this, player, player.obj
    {
      player.GetLives() > 0 && !player.obj.active
    }

    /** Everything back to the start: a full, active player at the start
        position and no wait in progress. */
    method Reset()
      requires Valid()
      modifies this`lastDeathTime, this`isRespawning
      modifies player.obj`x, player.obj`y, player.obj`active, player`lives, player`canShoot, player`lastShotTime
      ensures Valid()
      ensures player.lives == INITIAL_LIVES && player.obj.active && player.canShoot && player.lastShotTime == 0
      ensures player.obj.x == PLAYER_START_X && player.obj.y == PLAYER_Y
      ensures lastDeathTime == 0 && !isRespawning
    {
      player.Reset(PLAYER_START_X, PLAYER_Y);
      lastDeathTime := 0;
      isRespawning := false;
    }

    /** Passes the count to the player; a count of zero or less also ends any wait. */
    method SetLives(lives: int)
      requires Valid()
      modifies this`isRespawning, player`lives, player.obj`active
      ensures Valid()
      ensures player.lives == ClampLives(lives)
      ensures player.obj.active == (old(player.obj.active) && lives > 0)
      ensures isRespawning == (old(isRespawning) && lives > 0)
    {
      player.SetLives(lives);
      if lives <= 0 {
        isRespawning := false;
      }
    }

    /** Respawns at once, but only when a respawn is possible; otherwise nothing changes. */
    method ForceRespawn()
      requires Valid()
      modifies this`isRespawning, player.obj`x, player.obj`y, player.obj`active, player`canShoot, player`lastShotTime
      ensures Valid()
      ensures old(CanRespawn()) ==>
        !isRespawning && player.obj.active && player.canShoot && player.lastShotTime == 0 &&
        player.obj.x == PLAYER_START_X && player.obj.y == PLAYER_Y
      ensures !old(CanRespawn()) ==>
        isRespawning == old(isRespawning) && player.obj.active == old(player.obj.active) &&
        player.obj.x == old(player.obj.x) && player.obj.y == old(player.obj.y) &&
        player.canShoot == old(player.canShoot) && player.lastShotTime == old(player.lastShotTime)
    {
      if CanRespawn() {
        RespawnPlayer();
      }
    }

    method SetRespawnDelay(delay: int)
      requires Valid() && delay > 0
      modifies this`respawnDelay
      ensures Valid() && respawnDelay == delay
    {
      respawnDelay := delay;
    }

    function GetRespawnDelay(): int
      reads this
    {
      respawnDelay
    }

    function GetTimeSinceDeath(now: int): int
      reads this
    {
      now - lastDeathTime
    }

    function GetRespawnProgress(now: int): (r: real)
      requires Valid()
      reads this, player, player.obj
      ensures r == RespawnProgress(isRespawning, GetTimeSinceDeath(now), respawnDelay)
    {
      if !isRespawning then 1.0
      else
        var fraction := (GetTimeSinceDeath(now) as real) / (respawnDelay as real);
        if 1.0 < fraction then 1.0 else fraction
    }
  }
}
