// The generic pool the bullet, bomb and alien pools specialise: a free list
// (`pool`) and an in-use list (`active`).  The list mechanics live here; the
// specialised pools create fresh objects and reset released ones themselves.
module ObjectPools {
  import opened GameTypes
  import opened SeqUtil

  class ObjectPool<T(==)> {
    var pool: seq<T>
    var active: seq<T>
    const maxSize: int
    /** How many objects the constructor pre-warmed. */
    const initialSize: nat

    /** No object is on both lists or twice on one, and a pool pre-warmed
        within its capacity never holds more than `maxSize` objects. */
    ghost predicate Valid()
      reads this
    {
      NoDup(pool + active) &&
      (initialSize <= maxSize ==> |pool| + |active| <= maxSize)
    }

    /** `created` are the `initialSize` results of the creation callback. */
    constructor (created: seq<T>, maxSize: int)
      requires NoDup(created)
      ensures Valid()
      ensures pool == created && active == [] && this.maxSize == maxSize && initialSize == |created|
    {
      pool := [];
      active := [];
      this.maxSize := maxSize;
      initialSize := |created|;
      new;
      var i := 0;
      while i < |created|
        invariant 0 <= i <= |created| && pool == created[..i] && active == []
      {
        pool := pool + [created[i]];
        i := i + 1;
      }
    }

    /** Takes the most recently freed object; with an empty free list it hands
        out `candidate` (the creation callback's object) while fewer than
        `maxSize` are in use; otherwise there is nothing to give. */
    method Acquire(candidate: T) returns (obj: Option<T>)
      requires Valid() && candidate !in pool && candidate !in active
      modifies this
      ensures Valid()
      ensures |old(pool)| > 0 ==>
        obj == Some(old(pool)[|old(pool)| - 1]) &&
        pool == old(pool)[..|old(pool)| - 1] && active == old(active) + [obj.value]
      ensures |old(pool)| == 0 && |old(active)| < maxSize ==>
        obj == Some(candidate) && pool == [] && active == old(active) + [candidate]
      ensures |old(pool)| == 0 && |old(active)| >= maxSize ==>
        obj == None && pool == old(pool) && active == old(active)
    {
      obj := None;
      if |pool| > 0 {
        obj := Some(pool[|pool| - 1]);
        assert pool + active == pool[..|pool| - 1] + [obj.value] + active;
        ghost var before := pool + active;
        pool := pool[..|pool| - 1];
        assert forall x :: x in pool + active + [obj.value] <==> x in before;
        NoDupMove(pool, obj.value, active);
      } else if |active| < maxSize {
        obj := Some(candidate);
        assert pool + active + [candidate] == active + [candidate];
      }
      if obj.Some? {
        active := active + [obj.value];
      }
    }

    /** Moves `obj` from the in-use list to the free list, if it is in use. */
    method Release(obj: T) returns (found: bool)
      requires Valid()
      modifies this
      ensures Valid()
      ensures found == (obj in old(active))
      ensures found ==>
        active == RemoveAt(old(active), IndexOf(old(active), obj)) && pool == old(pool) + [obj]
      ensures !found ==> pool == old(pool) && active == old(active)
    {
      var index := IndexOf(active, obj);
      found := index > -1;
      if found {
        NoDupSplit(pool, active);
        NoDupRemoveAt(active, index);
        var rest := active[..index] + active[index + 1..];
        assert rest == RemoveAt(active, index);
        active := rest;
        pool := pool + [obj];
        NoDupRelease(old(pool), obj, rest, old(active));
      }
    }

    function GetActive(): seq<T>
      reads this
    {
      active
    }

    function GetActiveCount(): nat
      reads this
    {
      |active|
    }

    /** Returns every in-use object to the free list, in order. */
    method Clear() returns (moved: seq<T>)
      requires Valid()
      modifies this
      ensures Valid()
      ensures moved == old(active) && pool == old(pool) + old(active) && active == []
    {
      moved := active;
      var i := 0;
      while i < |moved|
        invariant 0 <= i <= |moved| && pool == old(pool) + moved[..i] && active == moved
      {
        pool := pool + [moved[i]];
        i := i + 1;
      }
      assert moved[..|moved|] == moved;
      active := [];
      assert pool + active == old(pool + active);
    }
  }

  lemma {:induction false} NoDupMove<T>(rest: seq<T>, x: T, act: seq<T>)
    requires NoDup(rest + [x] + act)
    ensures NoDup(rest + (act + [x]))
  {
    assert rest + [x] + act == rest + ([x] + act);
    NoDupSplit(rest, [x] + act);
    NoDupSplit([x], act);
    NoDupJoin(act, [x]);
    NoDupJoin(rest, act + [x]);
  }

  /** Moving a released object onto the free list keeps the lists duplicate-free. */
  lemma {:induction false} NoDupRelease<T>(p: seq<T>, x: T, rest: seq<T>, act: seq<T>)
    requires NoDup(p) && NoDup(act) && NoDup(rest) && x in act && x !in rest
    requires forall y :: y in p ==> y !in act
    requires forall y :: y in rest ==> y in act
    ensures NoDup(p + [x] + rest)
  {
    NoDupJoin(p, [x]);
    NoDupJoin(p + [x], rest);
  }
}
