// The pool of bombs: five pre-warmed bombs and never more than five, handed
// out by createBomb, advanced by update and recycled by release and reset.
module BombPools {
  import opened GameTypes
  import opened GameConstants
  import opened GameObjects
  import opened SeqUtil
  import opened ObjectPools
  import opened Bombs

  /** A bomb that is still in play after one more fall step. */
  ghost predicate Survives(b: Bomb)
    reads b.obj
  {
    b.obj.active && b.obj.y + BOMB_SPEED <= BOMB_EXIT_Y
  }

  /** Which bombs of `s` survive a step. */
  ghost function SurvivalMask(s: seq<Bomb>): (m: seq<bool>)
    reads set b | b in s :: b.obj
    ensures |m| == |s| && forall i :: 0 <= i < |s| ==> m[i] == Survives(s[i])
  {
    if s == [] then [] else [Survives(s[0])] + SurvivalMask(s[1..])
  }

  /** The position of each in-use bomb's state record in `active`; the bombs of
      the pool are distinct and own their records. */
  lemma {:induction false} Positions(pool: seq<Bomb>, active: seq<Bomb>, owner: map<GameObject, Bomb>) returns (pos: map<GameObject, int>)
    requires NoDup(active)
    requires forall b :: b in pool + active ==> b.obj in owner && owner[b.obj] == b
    ensures forall k :: 0 <= k < |active| ==> active[k].obj in pos && pos[active[k].obj] == k
  {
    assert forall k :: 0 <= k < |active| ==> active[k] in pool + active;
    pos := map k | 0 <= k < |active| :: active[k].obj := k;
  }

  ghost function Xs(s: seq<Bomb>): (r: seq<real>)
    reads set b | b in s :: b.obj
    ensures |r| == |s| && forall k :: 0 <= k < |s| ==> r[k] == s[k].obj.x
  {
    if s == [] then [] else [s[0].obj.x] + Xs(s[1..])
  }

  ghost function Ys(s: seq<Bomb>): (r: seq<real>)
    reads set b | b in s :: b.obj
    ensures |r| == |s| && forall k :: 0 <= k < |s| ==> r[k] == s[k].obj.y
  {
    if s == [] then [] else [s[0].obj.y] + Ys(s[1..])
  }

  ghost function Alive(s: seq<Bomb>): (r: seq<bool>)
    reads set b | b in s :: b.obj
    ensures |r| == |s| && forall k :: 0 <= k < |s| ==> r[k] == s[k].obj.active
  {
    if s == [] then [] else [s[0].obj.active] + Alive(s[1..])
  }

  /** Bomb `b` still has the position and liveness it had. */
  ghost predicate Untouched(b: Bomb, x: real, y: real, alive: bool)
    reads b.obj
  {
    b.obj.x == x && b.obj.y == y && b.obj.active == alive
  }

  /** Bomb `b`, which was at (x, y), has been swept: moved one step down if it
      was kept, otherwise reset to the origin and freed. */
  ghost predicate Swept(b: Bomb, kept: bool, x: real, y: real)
    reads b.obj
  {
    if kept then b.obj.active && b.obj.x == x && b.obj.y == y + BOMB_SPEED
    else !b.obj.active && b.obj.x == 0.0 && b.obj.y == 0.0
  }

  class BombPool {
    const base: ObjectPool<Bomb>
    ghost var Repr: set<object>
    /** The bomb each state record belongs to. */
    ghost var owner: map<GameObject, Bomb>

    ghost predicate Valid()
      reads this, base
    {
      this in Repr && base in Repr && base.Valid() &&
      base.maxSize == MAX_BOMBS as int && base.initialSize == 5 &&
      (forall b :: b in base.pool + base.active ==> b.obj in Repr && b.obj in owner && owner[b.obj] == b)
    }

    /** Pre-warms five bombs at the origin. */
    constructor ()
      ensures Valid() && fresh(Repr)
      ensures base.active == [] && |base.pool| == 5
      ensures forall b :: b in base.pool ==> b.obj.x == 0.0 && b.obj.y == 0.0
    {
      var created: seq<Bomb> := [];
      ghost var objs: set<object> := {};
      ghost var owns: map<GameObject, Bomb> := map[];
      while |created| < 5
        invariant |created| <= 5 && NoDup(created) && fresh(objs)
        invariant forall b :: b in created ==>
          b.obj in objs && b.obj in owns && owns[b.obj] == b && b.obj.x == 0.0 && b.obj.y == 0.0
      {
        var b := new Bomb(0.0, 0.0);
        created := created + [b];
        objs := objs + {b.obj};
        owns := owns[b.obj := b];
      }
      base := new ObjectPool(created, MAX_BOMBS as int);
      Repr := {this} + {base} + objs;
      owner := owns;
      assert created + [] == created;
    }

    /** Hands out a bomb at (x, y) with the bomb colour, active; there is none
        to give exactly when the free list is empty and five are in use. */
    method CreateBomb(x: real, y: real) returns (bomb: Option<Bomb>)
      requires Valid()
      modifies Repr
      ensures Valid() && fresh(Repr - old(Repr))
      ensures bomb.Some? <==> (|old(base.pool)| > 0 || |old(base.active)| < MAX_BOMBS)
      ensures bomb.Some? ==>
        base.active == old(base.active) + [bomb.value] &&
        bomb.value.obj.x == x && bomb.value.obj.y == y && bomb.value.obj.active &&
        bomb.value.obj.color == COLOR_BOMB
      ensures bomb.Some? && |old(base.pool)| > 0 ==>
        bomb.value == old(base.pool)[|old(base.pool)| - 1] && base.pool == old(base.pool)[..|old(base.pool)| - 1]
      ensures bomb.Some? && |old(base.pool)| == 0 ==> fresh(bomb.value.obj) && base.pool == []
      ensures bomb.None? ==> base.active == old(base.active) && base.pool == old(base.pool)
      ensures forall b :: b in old(base.pool + base.active) && bomb != Some(b) ==> unchanged(b.obj)
      ensures forall b :: b in old(base.active) ==> unchanged(b.obj)
    {
      var candidate := new Bomb(0.0, 0.0);
      owner := owner[candidate.obj := candidate];
      bomb := base.Acquire(candidate);
      if bomb.Some? {
        var b := bomb.value;
        ghost var all := base.pool + base.active;
        assert all[|all| - 1] == b;
        assert forall k :: 0 <= k < |old(base.active)| ==> all[|base.pool| + k] == old(base.active)[k];
        Repr := Repr + {candidate.obj};
        Launch(b, x, y);
      }
    }

    /** The fields createBomb sets on the bomb it hands out. */
    static method Launch(bomb: Bomb, x: real, y: real)
      modifies bomb.obj
      ensures bomb.obj.x == x && bomb.obj.y == y && bomb.obj.active && bomb.obj.color == COLOR_BOMB
    {
      bomb.obj.SetPosition(x, y);
      bomb.obj.SetColor(COLOR_BOMB);
      bomb.obj.active := true;
    }

    /** resetObject: back to the origin, inactive. */
    method ResetObject(bomb: Bomb)
      modifies bomb.obj`x, bomb.obj`y, bomb.obj`active
      ensures !bomb.obj.active && bomb.obj.x == 0.0 && bomb.obj.y == 0.0
    {
      bomb.obj.active := false;
      bomb.obj.SetPosition(0.0, 0.0);
    }

    /** Returns an in-use bomb to the free list, reset; any other argument changes nothing. */
    method Release(bomb: Bomb)
      requires Valid()
      modifies base, bomb.obj
      ensures Valid()
      ensures bomb in old(base.active) ==>
        base.active == RemoveAt(old(base.active), IndexOf(old(base.active), bomb)) &&
        base.pool == old(base.pool) + [bomb] &&
        !bomb.obj.active && bomb.obj.x == 0.0 && bomb.obj.y == 0.0
      ensures bomb !in old(base.active) ==>
        base.active == old(base.active) && base.pool == old(base.pool) && unchanged(bomb.obj)
    {
      var found := base.Release(bomb);
      if found {
        ResetObject(bomb);
      }
    }

    /** Advances every bomb in use (last to first) and frees, reset, those that
        became inactive or fell off the screen; the rest keep their order. */
    method Update(deltaTime: real)
      requires Valid()
      modifies base, set b | b in base.active :: b.obj
      ensures Valid()
      ensures base.active == Kept(old(base.active), old(SurvivalMask(base.active)))
      ensures base.pool == old(base.pool) + DroppedBackwards(old(base.active), old(SurvivalMask(base.active)))
      ensures forall k :: 0 <= k < |old(base.active)| ==>
        Swept(old(base.active)[k], old(Survives(base.active[k])), old(base.active[k].obj.x), old(base.active[k].obj.y))
    {
      ghost var act := base.active;
      ghost var free := base.pool;
      ghost var xs := Xs(act);
      ghost var ys := Ys(act);
      ghost var alive := Alive(act);
      ghost var keep := SurvivalMask(act);
      NoDupSplit(base.pool, base.active);
      ghost var pos := Positions(base.pool, base.active, owner);
      var i := |base.active| - 1;
      while i >= 0
        invariant -1 <= i < |act| && Valid()
        invariant base.active == act[..i + 1] + Kept(act[i + 1..], keep[i + 1..])
        invariant base.pool == free + DroppedBackwards(act[i + 1..], keep[i + 1..])
        invariant forall k :: 0 <= k <= i ==> Untouched(act[k], xs[k], ys[k], alive[k])
        invariant forall k :: i < k < |act| ==> Swept(act[k], keep[k], xs[k], ys[k])
      {
        Step(i, deltaTime, act, free, xs, ys, alive, keep, pos);
        i := i - 1;
      }
      assert i + 1 == 0;
      assert act[..i + 1] == [] && act[i + 1..] == act && keep[i + 1..] == keep;
      assert keep == old(SurvivalMask(base.active));
      assert base.active == Kept(act, keep);
      assert base.pool == free + DroppedBackwards(act, keep);
      assert forall k :: 0 <= k < |act| ==> Swept(act[k], keep[k], xs[k], ys[k]);
    }

    /** One iteration of Update's backwards sweep, at position `i`: the bombs
        before `i` are as they were, those after it are swept. */
    method Step(i: int, deltaTime: real, ghost act: seq<Bomb>, ghost free: seq<Bomb>,
                ghost xs: seq<real>, ghost ys: seq<real>, ghost alive: seq<bool>, ghost keep: seq<bool>,
                ghost pos: map<GameObject, int>)
      requires Valid() && 0 <= i < |act| && |xs| == |ys| == |alive| == |keep| == |act|
      requires NoDup(act)
      requires forall k :: 0 <= k < |act| ==> act[k].obj in pos && pos[act[k].obj] == k
      requires forall k :: 0 <= k < |act| ==> keep[k] == (alive[k] && ys[k] + BOMB_SPEED <= BOMB_EXIT_Y)
      requires base.active == act[..i + 1] + Kept(act[i + 1..], keep[i + 1..])
      requires base.pool == free + DroppedBackwards(act[i + 1..], keep[i + 1..])
      requires forall k :: 0 <= k <= i ==> Untouched(act[k], xs[k], ys[k], alive[k])
      requires forall k :: i < k < |act| ==> Swept(act[k], keep[k], xs[k], ys[k])
      modifies base, act[i].obj
      ensures Valid()
      ensures base.active == act[..(i - 1) + 1] + Kept(act[(i - 1) + 1..], keep[(i - 1) + 1..])
      ensures base.pool == free + DroppedBackwards(act[(i - 1) + 1..], keep[(i - 1) + 1..])
      ensures forall k :: 0 <= k <= i - 1 ==> Untouched(act[k], xs[k], ys[k], alive[k])
      ensures forall k :: i - 1 < k < |act| ==> Swept(act[k], keep[k], xs[k], ys[k])
    {
      var bomb := base.active[i];
      NoDupSplit(base.pool, base.active);
      SweepStep(act, keep, free, i, base.active, base.pool);
      Advance(bomb, i, deltaTime, act, xs, ys, alive, keep, pos);
      if !bomb.obj.active || bomb.obj.y > BOMB_EXIT_Y {
        Retire(bomb, i, act, xs, ys, alive, keep, pos);
      }
    }

    /** Moves bomb `i` of the sweep one step; no other bomb changes. */
    method Advance(bomb: Bomb, i: int, deltaTime: real, ghost act: seq<Bomb>,
                   ghost xs: seq<real>, ghost ys: seq<real>, ghost alive: seq<bool>, ghost keep: seq<bool>,
                   ghost pos: map<GameObject, int>)
      requires 0 <= i < |act| && |xs| == |ys| == |alive| == |keep| == |act| && bomb == act[i]
      requires forall k :: 0 <= k < |act| ==> act[k].obj in pos && pos[act[k].obj] == k
      requires forall k :: 0 <= k <= i ==> Untouched(act[k], xs[k], ys[k], alive[k])
      requires forall k :: i < k < |act| ==> Swept(act[k], keep[k], xs[k], ys[k])
      modifies bomb.obj`y, bomb.obj`active
      ensures forall k :: 0 <= k < i ==> Untouched(act[k], xs[k], ys[k], alive[k])
      ensures forall k :: i < k < |act| ==> Swept(act[k], keep[k], xs[k], ys[k])
      ensures bomb.obj.x == xs[i] && bomb.obj.y == ys[i] + BOMB_SPEED
      ensures bomb.obj.active == (alive[i] && bomb.obj.y <= BOMB_EXIT_Y)
    {
      bomb.Update(deltaTime);
      forall k | 0 <= k < |act| && k != i
        ensures act[k].obj.active == old(act[k].obj.active) && act[k].obj.y == old(act[k].obj.y)
      {
        assert pos[act[k].obj] != pos[bomb.obj];
      }
    }

    /** Frees bomb `i` of the sweep, which is in use; no other bomb changes. */
    method Retire(bomb: Bomb, i: int, ghost act: seq<Bomb>,
                  ghost xs: seq<real>, ghost ys: seq<real>, ghost alive: seq<bool>, ghost keep: seq<bool>,
                  ghost pos: map<GameObject, int>)
      requires Valid() && bomb in base.active
      requires 0 <= i < |act| && |xs| == |ys| == |alive| == |keep| == |act| && bomb == act[i] && !keep[i]
      requires forall k :: 0 <= k < |act| ==> act[k].obj in pos && pos[act[k].obj] == k
      requires forall k :: 0 <= k < i ==> Untouched(act[k], xs[k], ys[k], alive[k])
      requires forall k :: i < k < |act| ==> Swept(act[k], keep[k], xs[k], ys[k])
      modifies base, bomb.obj
      ensures Valid()
      ensures base.active == RemoveAt(old(base.active), IndexOf(old(base.active), bomb))
      ensures base.pool == old(base.pool) + [bomb]
      ensures forall k :: 0 <= k < i ==> Untouched(act[k], xs[k], ys[k], alive[k])
      ensures forall k :: i - 1 < k < |act| ==> Swept(act[k], keep[k], xs[k], ys[k])
    {
      Release(bomb);
      forall k | 0 <= k < |act| && k != i
        ensures act[k].obj.active == old(act[k].obj.active)
        ensures act[k].obj.x == old(act[k].obj.x) && act[k].obj.y == old(act[k].obj.y)
      {
        assert pos[act[k].obj] != pos[bomb.obj];
      }
    }

    /** Frees every bomb in use, last first. */
    method Reset()
      requires Valid()
      modifies Repr
      ensures Valid() && Repr == old(Repr)
      ensures base.active == [] && base.pool == old(base.pool) + Reverse(old(base.active))
      ensures forall b :: b in old(base.active) ==> !b.obj.active && b.obj.x == 0.0 && b.obj.y == 0.0
      ensures forall b :: b in old(base.pool) ==> unchanged(b.obj)
    {
      ghost var act := base.active;
      NoDupSplit(base.pool, base.active);
      var i := |base.active| - 1;
      while i >= 0
        invariant -1 <= i < |act| && Valid() && Repr == old(Repr) && owner == old(owner)
        invariant base.active == act[..i + 1]
        invariant base.pool == old(base.pool) + Reverse(act[i + 1..])
        invariant forall k :: i < k < |act| ==> !act[k].obj.active && act[k].obj.x == 0.0 && act[k].obj.y == 0.0
        invariant forall b :: b in old(base.pool) ==> unchanged(b.obj)
      {
        ResetAt(i, act, old(base.pool));
        i := i - 1;
      }
    }

    /** One step of reset: frees the last bomb in use, entry `i` of `act`;
        the bombs on the free list and the other entries of `act` keep their
        state. */
    method ResetAt(i: int, ghost act: seq<Bomb>, ghost free: seq<Bomb>)
      requires Valid() && 0 <= i < |act| && NoDup(act)
      requires forall k :: 0 <= k < |act| ==> act[k].obj in owner && owner[act[k].obj] == act[k]
      requires base.active == act[..i + 1] && base.pool == free + Reverse(act[i + 1..])
      modifies base, act[i].obj
      ensures Valid() && Repr == old(Repr)
      ensures base.active == act[..i] && base.pool == free + Reverse(act[i..])
      ensures !act[i].obj.active && act[i].obj.x == 0.0 && act[i].obj.y == 0.0
      ensures forall k :: 0 <= k < |act| && k != i ==> unchanged(act[k].obj)
      ensures forall b :: b in free ==> unchanged(b.obj)
    {
      NoDupSplit(base.pool, base.active);
      assert base.active[i] == act[i];
      IndexOfNoDup(base.active, i);
      assert forall b :: b in base.pool ==> b.obj != act[i].obj;
      assert forall k :: 0 <= k < |act| && k != i ==> act[k].obj != act[i].obj;
      Release(base.active[i]);
      assert act[..i + 1][..i] == act[..i] && act[..i + 1][i + 1..] == [];
      assert act[i..][1..] == act[i + 1..];
    }

    function GetActiveBombs(): seq<Bomb>
      reads this, base
    {
      base.active
    }

    function GetActiveBombCount(): nat
      reads this, base
    {
      |base.active|
    }

    /** At most five bombs are ever in use. */
    lemma {:induction false} ActiveBounded()
      requires Valid()
      ensures |base.active| <= MAX_BOMBS
    {
    }
  }
}
