// The pool of bullets: five pre-warmed bullets and never more than ten, handed
// out by createBullet, advanced by update and recycled by release and reset.
module BulletPools {
  import opened GameTypes
  import opened GameConstants
  import opened GameObjects
  import opened SeqUtil
  import opened ObjectPools
  import opened Bullets

  /** A bullet that is still in play after one more rise step. */
  ghost predicate Survives(b: Bullet)
    reads b.obj
  {
    b.obj.active && b.obj.y + BULLET_SPEED >= BULLET_EXIT_Y
  }

  /** Which bullets of `s` survive a step. */
  ghost function SurvivalMask(s: seq<Bullet>): (m: seq<bool>)
    reads set b | b in s :: b.obj
    ensures |m| == |s| && forall i :: 0 <= i < |s| ==> m[i] == Survives(s[i])
  {
    if s == [] then [] else [Survives(s[0])] + SurvivalMask(s[1..])
  }

  /** The position of each in-use bullet's state record in `active`; the bullets of
      the pool are distinct and own their records. */
  lemma {:induction false} Positions(pool: seq<Bullet>, active: seq<Bullet>, owner: map<GameObject, Bullet>) returns (pos: map<GameObject, int>)
    requires NoDup(active)
    requires forall b :: b in pool + active ==> b.obj in owner && owner[b.obj] == b
    ensures forall k :: 0 <= k < |active| ==> active[k].obj in pos && pos[active[k].obj] == k
  {
    assert forall k :: 0 <= k < |active| ==> active[k] in pool + active;
    pos := map k | 0 <= k < |active| :: active[k].obj := k;
  }

  ghost function Xs(s: seq<Bullet>): (r: seq<real>)
    reads set b | b in s :: b.obj
    ensures |r| == |s| && forall k :: 0 <= k < |s| ==> r[k] == s[k].obj.x
  {
    if s == [] then [] else [s[0].obj.x] + Xs(s[1..])
  }

  ghost function Ys(s: seq<Bullet>): (r: seq<real>)
    reads set b | b in s :: b.obj
    ensures |r| == |s| && forall k :: 0 <= k < |s| ==> r[k] == s[k].obj.y
  {
    if s == [] then [] else [s[0].obj.y] + Ys(s[1..])
  }

  ghost function Alive(s: seq<Bullet>): (r: seq<bool>)
    reads set b | b in s :: b.obj
    ensures |r| == |s| && forall k :: 0 <= k < |s| ==> r[k] == s[k].obj.active
  {
    if s == [] then [] else [s[0].obj.active] + Alive(s[1..])
  }

  /** Bullet `b` still has the position and liveness it had. */
  ghost predicate Untouched(b: Bullet, x: real, y: real, alive: bool)
    reads b.obj
  {
    b.obj.x == x && b.obj.y == y && b.obj.active == alive
  }

  /** Bullet `b`, which was at (x, y), has been swept: moved one step up if it
      was kept, otherwise reset to the origin and freed. */
  ghost predicate Swept(b: Bullet, kept: bool, x: real, y: real)
    reads b.obj
  {
    if kept then b.obj.active && b.obj.x == x && b.obj.y == y + BULLET_SPEED
    else !b.obj.active && b.obj.x == 0.0 && b.obj.y == 0.0
  }

  class BulletPool {
    const base: ObjectPool<Bullet>
    ghost var Repr: set<object>
    /** The bullet each state record belongs to. */
    ghost var owner: map<GameObject, Bullet>

    ghost predicate Valid()
      reads this, base
    {
      this in Repr && base in Repr && base.Valid() &&
      base.maxSize == MAX_BULLETS as int && base.initialSize == 5 &&
      (forall b :: b in base.pool + base.active ==> b.obj in Repr && b.obj in owner && owner[b.obj] == b)
    }

    /** Pre-warms five bullets at the origin. */
    constructor ()
      ensures Valid() && fresh(Repr)
      ensures base.active == [] && |base.pool| == 5
      ensures forall b :: b in base.pool ==> b.obj.x == 0.0 && b.obj.y == 0.0
    {
      var created: seq<Bullet> := [];
      ghost var objs: set<object> := {};
      ghost var owns: map<GameObject, Bullet> := map[];
      while |created| < 5
        invariant |created| <= 5 && NoDup(created) && fresh(objs)
        invariant forall b :: b in created ==>
          b.obj in objs && b.obj in owns && owns[b.obj] == b && b.obj.x == 0.0 && b.obj.y == 0.0
      {
        var b := new Bullet(0.0, 0.0);
        created := created + [b];
        objs := objs + {b.obj};
        owns := owns[b.obj := b];
      }
      base := new ObjectPool(created, MAX_BULLETS as int);
      Repr := {this} + {base} + objs;
      owner := owns;
      assert created + [] == created;
    }

    /** Hands out a bullet at (x, y) with the bullet colour, active; there is none
        to give exactly when the free list is empty and ten are in use. */
    method CreateBullet(x: real, y: real) returns (bullet: Option<Bullet>)
      requires Valid()
      modifies Repr
      ensures Valid() && fresh(Repr - old(Repr))
      ensures bullet.Some? <==> (|old(base.pool)| > 0 || |old(base.active)| < MAX_BULLETS)
      ensures bullet.Some? ==>
        base.active == old(base.active) + [bullet.value] &&
        bullet.value.obj.x == x && bullet.value.obj.y == y && bullet.value.obj.active &&
        bullet.value.obj.color == COLOR_BULLET
      ensures bullet.Some? && |old(base.pool)| > 0 ==>
        bullet.value == old(base.pool)[|old(base.pool)| - 1] && base.pool == old(base.pool)[..|old(base.pool)| - 1]
      ensures bullet.Some? && |old(base.pool)| == 0 ==> fresh(bullet.value.obj) && base.pool == []
      ensures bullet.None? ==> base.active == old(base.active) && base.pool == old(base.pool)
      ensures forall b :: b in old(base.pool + base.active) && bullet != Some(b) ==> unchanged(b.obj)
    {
      var candidate := new Bullet(0.0, 0.0);
      owner := owner[candidate.obj := candidate];
      bullet := base.Acquire(candidate);
      if bullet.Some? {
        var b := bullet.value;
        ghost var all := base.pool + base.active;
        assert all[|all| - 1] == b;
        Repr := Repr + {candidate.obj};
        Launch(b, x, y);
      }
    }

    /** The fields createBullet sets on the bullet it hands out. */
    static method Launch(bullet: Bullet, x: real, y: real)
      modifies bullet.obj
      ensures bullet.obj.x == x && bullet.obj.y == y && bullet.obj.active && bullet.obj.color == COLOR_BULLET
    {
      bullet.obj.SetPosition(x, y);
      bullet.obj.SetColor(COLOR_BULLET);
      bullet.obj.active := true;
    }

    /** resetObject: back to the origin, inactive. */
    method ResetObject(bullet: Bullet)
      modifies bullet.obj`x, bullet.obj`y, bullet.obj`active
      ensures !bullet.obj.active && bullet.obj.x == 0.0 && bullet.obj.y == 0.0
    {
      bullet.obj.active := false;
      bullet.obj.SetPosition(0.0, 0.0);
    }

    /** Returns an in-use bullet to the free list, reset; any other argument changes nothing. */
    method Release(bullet: Bullet)
      requires Valid()
      modifies base, bullet.obj
      ensures Valid()
      ensures bullet in old(base.active) ==>
        base.active == RemoveAt(old(base.active), IndexOf(old(base.active), bullet)) &&
        base.pool == old(base.pool) + [bullet] &&
        !bullet.obj.active && bullet.obj.x == 0.0 && bullet.obj.y == 0.0
      ensures bullet !in old(base.active) ==>
        base.active == old(base.active) && base.pool == old(base.pool) && unchanged(bullet.obj)
    {
      var found := base.Release(bullet);
      if found {
        ResetObject(bullet);
      }
    }

    /** Advances every bullet in use (last to first) and frees, reset, those that
        became inactive or fell off the screen; the rest keep their order. */
    method Update(deltaTime: real)
      requires Valid()
      modifies base, set b | b in base.active :: b.obj
      ensures Valid()
      ensures base.active == Kept(old(base.active), old(SurvivalMask(base.active)))
      ensures base.pool == old(base.pool) + DroppedBackwards(old(base.active), old(SurvivalMask(base.active)))
      ensures forall k :: 0 <= k < |old(base.active)| ==>
        Swept(old(base.active)[k], old(Survives(base.active[k])), old(base.active[k].obj.x), old(base.active[k].obj.y))
    {
      ghost var act := base.active;
      ghost var free := base.pool;
      ghost var xs := Xs(act);
      ghost var ys := Ys(act);
      ghost var alive := Alive(act);
      ghost var keep := SurvivalMask(act);
      NoDupSplit(base.pool, base.active);
      ghost var pos := Positions(base.pool, base.active, owner);
      var i := |base.active| - 1;
      while i >= 0
        invariant -1 <= i < |act| && Valid()
        invariant base.active == act[..i + 1] + Kept(act[i + 1..], keep[i + 1..])
        invariant base.pool == free + DroppedBackwards(act[i + 1..], keep[i + 1..])
        invariant forall k :: 0 <= k <= i ==> Untouched(act[k], xs[k], ys[k], alive[k])
        invariant forall k :: i < k < |act| ==> Swept(act[k], keep[k], xs[k], ys[k])
      {
        Step(i, deltaTime, act, free, xs, ys, alive, keep, pos);
        i := i - 1;
      }
      assert i + 1 == 0;
      assert act[..i + 1] == [] && act[i + 1..] == act && keep[i + 1..] == keep;
      assert keep == old(SurvivalMask(base.active));
      assert base.active == Kept(act, keep);
      assert base.pool == free + DroppedBackwards(act, keep);
      assert forall k :: 0 <= k < |act| ==> Swept(act[k], keep[k], xs[k], ys[k]);
    }

    /** One iteration of Update's backwards sweep, at position `i`: the bullets
        before `i` are as they were, those after it are swept. */
    method Step(i: int, deltaTime: real, ghost act: seq<Bullet>, ghost free: seq<Bullet>,
                ghost xs: seq<real>, ghost ys: seq<real>, ghost alive: seq<bool>, ghost keep: seq<bool>,
                ghost pos: map<GameObject, int>)
      requires Valid() && 0 <= i < |act| && |xs| == |ys| == |alive| == |keep| == |act|
      requires NoDup(act)
      requires forall k :: 0 <= k < |act| ==> act[k].obj in pos && pos[act[k].obj] == k
      requires forall k :: 0 <= k < |act| ==> keep[k] == (alive[k] && ys[k] + BULLET_SPEED >= BULLET_EXIT_Y)
      requires base.active == act[..i + 1] + Kept(act[i + 1..], keep[i + 1..])
      requires base.pool == free + DroppedBackwards(act[i + 1..], keep[i + 1..])
      requires forall k :: 0 <= k <= i ==> Untouched(act[k], xs[k], ys[k], alive[k])
      requires forall k :: i < k < |act| ==> Swept(act[k], keep[k], xs[k], ys[k])
      modifies base, act[i].obj
      ensures Valid()
      ensures base.active == act[..(i - 1) + 1] + Kept(act[(i - 1) + 1..], keep[(i - 1) + 1..])
      ensures base.pool == free + DroppedBackwards(act[(i - 1) + 1..], keep[(i - 1) + 1..])
      ensures forall k :: 0 <= k <= i - 1 ==> Untouched(act[k], xs[k], ys[k], alive[k])
      ensures forall k :: i - 1 < k < |act| ==> Swept(act[k], keep[k], xs[k], ys[k])
    {
      var bullet := base.active[i];
      NoDupSplit(base.pool, base.active);
      SweepStep(act, keep, free, i, base.active, base.pool);
      Advance(bullet, i, deltaTime, act, xs, ys, alive, keep, pos);
      if !bullet.obj.active || bullet.obj.y < BULLET_EXIT_Y {
        Retire(bullet, i, act, xs, ys, alive, keep, pos);
      }
    }

    /** Moves bullet `i` of the sweep one step; no other bullet changes. */
    method Advance(bullet: Bullet, i: int, deltaTime: real, ghost act: seq<Bullet>,
                   ghost xs: seq<real>, ghost ys: seq<real>, ghost alive: seq<bool>, ghost keep: seq<bool>,
                   ghost pos: map<GameObject, int>)
      requires 0 <= i < |act| && |xs| == |ys| == |alive| == |keep| == |act| && bullet == act[i]
      requires forall k :: 0 <= k < |act| ==> act[k].obj in pos && pos[act[k].obj] == k
      requires forall k :: 0 <= k <= i ==> Untouched(act[k], xs[k], ys[k], alive[k])
      requires forall k :: i < k < |act| ==> Swept(act[k], keep[k], xs[k], ys[k])
      modifies bullet.obj`y, bullet.obj`active
      ensures forall k :: 0 <= k < i ==> Untouched(act[k], xs[k], ys[k], alive[k])
      ensures forall k :: i < k < |act| ==> Swept(act[k], keep[k], xs[k], ys[k])
      ensures bullet.obj.x == xs[i] && bullet.obj.y == ys[i] + BULLET_SPEED
      ensures bullet.obj.active == (alive[i] && bullet.obj.y >= BULLET_EXIT_Y)
    {
      bullet.Update(deltaTime);
      forall k | 0 <= k < |act| && k != i
        ensures act[k].obj.active == old(act[k].obj.active) && act[k].obj.y == old(act[k].obj.y)
      {
        assert pos[act[k].obj] != pos[bullet.obj];
      }
    }

    /** Frees bullet `i` of the sweep, which is in use; no other bullet changes. */
    method Retire(bullet: Bullet, i: int, ghost act: seq<Bullet>,
                  ghost xs: seq<real>, ghost ys: seq<real>, ghost alive: seq<bool>, ghost keep: seq<bool>,
                  ghost pos: map<GameObject, int>)
      requires Valid() && bullet in base.active
      requires 0 <= i < |act| && |xs| == |ys| == |alive| == |keep| == |act| && bullet == act[i] && !keep[i]
      requires forall k :: 0 <= k < |act| ==> act[k].obj in pos && pos[act[k].obj] == k
      requires forall k :: 0 <= k < i ==> Untouched(act[k], xs[k], ys[k], alive[k])
      requires forall k :: i < k < |act| ==> Swept(act[k], keep[k], xs[k], ys[k])
      modifies base, bullet.obj
      ensures Valid()
      ensures base.active == RemoveAt(old(base.active), IndexOf(old(base.active), bullet))
      ensures base.pool == old(base.pool) + [bullet]
      ensures forall k :: 0 <= k < i ==> Untouched(act[k], xs[k], ys[k], alive[k])
      ensures forall k :: i - 1 < k < |act| ==> Swept(act[k], keep[k], xs[k], ys[k])
    {
      Release(bullet);
      forall k | 0 <= k < |act| && k != i
        ensures act[k].obj.active == old(act[k].obj.active)
        ensures act[k].obj.x == old(act[k].obj.x) && act[k].obj.y == old(act[k].obj.y)
      {
        assert pos[act[k].obj] != pos[bullet.obj];
      }
    }

    /** Frees every bullet in use, last first. */
    method Reset()
      requires Valid()
      modifies Repr
      ensures Valid() && Repr == old(Repr)
      ensures base.active == [] && base.pool == old(base.pool) + Reverse(old(base.active))
      ensures forall b :: b in old(base.active) ==> !b.obj.active && b.obj.x == 0.0 && b.obj.y == 0.0
      ensures forall b :: b in old(base.pool) ==> unchanged(b.obj)
    {
      ghost var act := base.active;
      NoDupSplit(base.pool, base.active);
      var i := |base.active| - 1;
      while i >= 0
        invariant -1 <= i < |act| && Valid() && Repr == old(Repr) && owner == old(owner)
        invariant base.active == act[..i + 1]
        invariant base.pool == old(base.pool) + Reverse(act[i + 1..])
        invariant forall k :: i < k < |act| ==> !act[k].obj.active && act[k].obj.x == 0.0 && act[k].obj.y == 0.0
        invariant forall b :: b in old(base.pool) ==> unchanged(b.obj)
      {
        ResetAt(i, act, old(base.pool));
        i := i - 1;
      }
    }

    /** One step of reset: frees the last bullet in use, entry `i` of `act`;
        the bullets on the free list and the other entries of `act` keep their
        state. */
    method ResetAt(i: int, ghost act: seq<Bullet>, ghost free: seq<Bullet>)
      requires Valid() && 0 <= i < |act| && NoDup(act)
      requires forall k :: 0 <= k < |act| ==> act[k].obj in owner && owner[act[k].obj] == act[k]
      requires base.active == act[..i + 1] && base.pool == free + Reverse(act[i + 1..])
      modifies base, act[i].obj
      ensures Valid() && Repr == old(Repr)
      ensures base.active == act[..i] && base.pool == free + Reverse(act[i..])
      ensures !act[i].obj.active && act[i].obj.x == 0.0 && act[i].obj.y == 0.0
      ensures forall k :: 0 <= k < |act| && k != i ==> unchanged(act[k].obj)
      ensures forall b :: b in free ==> unchanged(b.obj)
    {
      NoDupSplit(base.pool, base.active);
      assert base.active[i] == act[i];
      IndexOfNoDup(base.active, i);
      assert forall b :: b in base.pool ==> b.obj != act[i].obj;
      assert forall k :: 0 <= k < |act| && k != i ==> act[k].obj != act[i].obj;
      Release(base.active[i]);
      assert act[..i + 1][..i] == act[..i] && act[..i + 1][i + 1..] == [];
      assert act[i..][1..] == act[i + 1..];
    }

    /** At most ten bullets are ever in use. */
    lemma {:induction false} ActiveBounded()
      requires Valid()
      ensures |base.active| <= MAX_BULLETS
    {
    }
  }
}
