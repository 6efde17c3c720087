// The alternative pool of game objects that nothing in the game constructs:
// it pre-warms `maxSize` inactive objects, reclaims inactive in-use objects
// when the free list runs dry (dropping them from the in-use list), returns
// released objects to the free list only while it is below capacity, sweeps
// off-screen objects backwards and clears by iterating the very list that
// each release shortens.
module BasePools {
  import opened GameTypes
  import opened GameConstants
  import opened GameObjects
  import opened SeqUtil
  import opened ObjectPools

  function Max0(n: int): nat {
    if n < 0 then 0 else n
  }

  /** `p` extended by the elements of `xs` in order, each pushed only while
      `p` is shorter than `cap`. */
  function Fill<T>(p: seq<T>, xs: seq<T>, cap: int): (r: seq<T>)
    ensures |p| <= |r| <= if |p| < cap then cap else |p|
    ensures r[..|p|] == p
  {
    var room := if cap - |p| > 0 then cap - |p| else 0;
    var n := if |xs| < room then |xs| else room;
    assert (p + xs[..n])[..|p|] == p;
    p + xs[..n]
  }

  /** Pushing one more element under the capacity rule. */
  lemma {:induction false} FillStep<T>(p: seq<T>, xs: seq<T>, x: T, cap: int)
    ensures Fill(p, xs + [x], cap) ==
      if |Fill(p, xs, cap)| < cap then Fill(p, xs, cap) + [x] else Fill(p, xs, cap)
  {
    var room := if cap - |p| > 0 then cap - |p| else 0;
    if |xs| < room {
      assert (xs + [x])[..|xs| + 1] == xs + [x];
      assert xs[..|xs|] == xs;
    } else {
      assert (xs + [x])[..room] == xs[..room];
    }
  }

  /** FillStep with the current free list named `pool`. */
  lemma {:induction false} FillPush<T>(pool: seq<T>, p: seq<T>, xs: seq<T>, x: T, cap: int)
    requires pool == Fill(p, xs, cap)
    ensures Fill(p, xs + [x], cap) == if |pool| < cap then pool + [x] else pool
  {
    FillStep(p, xs, x, cap);
  }

  /** The elements of `s` whose mark is clear, in order. */
  function Dropped<T>(s: seq<T>, m: seq<bool>): (r: seq<T>)
    requires |s| == |m|
    ensures |r| <= |s|
  {
    if s == [] then [] else (if m[0] then [] else [s[0]]) + Dropped(s[1..], m[1..])
  }

  /** Which entries of a list with liveness `live` the for-of loop of clear
      leaves behind: an inactive entry is visited and stays; an active one
      is released, which shifts its successor into the visited slot, so
      that successor is skipped and stays too. */
  function ClearStays(live: seq<bool>): (r: seq<bool>)
    ensures |r| == |live|
  {
    if live == [] then []
    else if !live[0] then [true] + ClearStays(live[1..])
    else if |live| == 1 then [false]
    else [false, true] + ClearStays(live[2..])
  }

  /** Only active entries are released: inactive ones always stay. */
  lemma {:induction false} ClearReleasesOnlyLive(live: seq<bool>)
    ensures forall k :: 0 <= k < |live| && !ClearStays(live)[k] ==> live[k]
  {
    if live != [] {
      if !live[0] {
        ClearReleasesOnlyLive(live[1..]);
        assert forall k :: 1 <= k < |live| ==> ClearStays(live)[k] == ClearStays(live[1..])[k - 1];
      } else if |live| > 1 {
        ClearReleasesOnlyLive(live[2..]);
        assert forall k :: 2 <= k < |live| ==> ClearStays(live)[k] == ClearStays(live[2..])[k - 2];
      }
    }
  }

  /** With every entry active, clear releases exactly the entries at even
      positions and leaves every odd one in use. */
  lemma {:induction false} ClearAllLive(live: seq<bool>)
    requires forall k :: 0 <= k < |live| ==> live[k]
    ensures forall k :: 0 <= k < |live| ==> ClearStays(live)[k] == (k % 2 == 1)
  {
    if |live| > 1 {
      ClearAllLive(live[2..]);
      assert forall k :: 2 <= k < |live| ==> ClearStays(live)[k] == ClearStays(live[2..])[k - 2];
    }
  }

  /** Two active objects in use: clear releases the first only. */
  lemma {:induction false} ClearSkipsSecond(a: GameObject, b: GameObject)
    requires a != b
    ensures ClearStays([true, true]) == [false, true]
    ensures Kept([a, b], ClearStays([true, true])) == [b]
  {
    assert ClearStays([true, true]) == [false, true] + ClearStays([]);
  }

  /** The liveness flags of a list of objects. */
  ghost function Flags(s: seq<GameObject>): (r: seq<bool>)
    reads set o | o in s
    ensures |r| == |s| && forall k :: 0 <= k < |s| ==> r[k] == s[k].active
  {
    if s == [] then [] else [s[0].active] + Flags(s[1..])
  }

  /** Which objects of `s` the update sweep leaves in use: all but the active
      ones that are off the 800 by 600 screen. */
  ghost function SweepKeeps(s: seq<GameObject>): (r: seq<bool>)
    reads set o | o in s
    ensures |r| == |s|
    ensures forall k :: 0 <= k < |s| ==> r[k] == !(s[k].active && s[k].IsOffScreen(CANVAS_WIDTH, CANVAS_HEIGHT))
  {
    if s == [] then []
    else [!(s[0].active && s[0].IsOffScreen(CANVAS_WIDTH, CANVAS_HEIGHT))] + SweepKeeps(s[1..])
  }

  /** Array.prototype.findIndex with "not active": the first inactive object, or -1. */
  function FirstInactive(s: seq<GameObject>): (i: int)
    reads set o | o in s
    ensures -1 <= i < |s|
    ensures 0 <= i ==> !s[i].active && forall k :: 0 <= k < i ==> s[k].active
    ensures i == -1 <==> forall k :: 0 <= k < |s| ==> s[k].active
  {
    if s == [] then -1
    else if !s[0].active then 0
    else
      var k := FirstInactive(s[1..]);
      if k < 0 then -1 else k + 1
  }

  class BasePool {
    /** The free list. */
    var pool: seq<GameObject>
    /** The in-use list. */
    var active: seq<GameObject>
    const maxSize: int

    /** The free list never exceeds `maxSize`, no object is listed twice, and
        every free object is inactive. */
    ghost predicate Valid()
      reads this, set o | o in pool
    {
      |pool| <= Max0(maxSize) && NoDup(pool + active) &&
      forall o :: o in pool ==> !o.active
    }

    /** preWarm: `maxSize` new, inactive objects of the given kind and extent
        on the free list. */
    constructor (maxSize: int, kind: Kind, width: real, height: real)
      ensures Valid()
      ensures this.maxSize == maxSize && |pool| == Max0(maxSize) && active == []
      ensures forall o :: o in pool ==> fresh(o) && o.kind == kind && o.width == width && o.height == height
    {
      this.maxSize := maxSize;
      active := [];
      pool := [];
      new;
      var i := 0;
      while i < maxSize
        invariant 0 <= i <= Max0(maxSize) && |pool| == i && active == []
        invariant NoDup(pool) && forall o :: o in pool ==> !o.active
        invariant forall o :: o in pool ==> fresh(o) && o.kind == kind && o.width == width && o.height == height
      {
        var o := new GameObject(0.0, 0.0, width, height, kind);
        o.active := false;
        pool := pool + [o];
        i := i + 1;
      }
      assert pool + active == pool;
    }

    /** Pops the last free object and puts it in use; with an empty free list,
        takes the first inactive in-use object out of the in-use list and
        reactivates it (it is then listed nowhere); else there is none. */
    method Acquire() returns (obj: Option<GameObject>)
      requires Valid()
      modifies this, (set o | o in pool + active)`active
      ensures Valid()
      ensures |old(pool)| > 0 ==>
        obj == Some(old(pool)[|old(pool)| - 1]) && obj.value.active &&
        pool == old(pool)[..|old(pool)| - 1] && active == old(active) + [obj.value]
      ensures |old(pool)| == 0 && old(FirstInactive(active)) >= 0 ==>
        obj == Some(old(active)[old(FirstInactive(active))]) && obj.value.active &&
        pool == [] && active == RemoveAt(old(active), old(FirstInactive(active)))
      ensures |old(pool)| == 0 && old(FirstInactive(active)) < 0 ==>
        obj == None && pool == [] && active == old(active)
      ensures forall o :: o in old(pool + active) && obj != Some(o) ==> o.active == old(o.active)
    {
      NoDupSplit(pool, active);
      if |pool| > 0 {
        var o := pool[|pool| - 1];
        assert pool + active == pool[..|pool| - 1] + [o] + active;
        pool := pool[..|pool| - 1];
        NoDupMove(pool, o, active);
        o.active := true;
        active := active + [o];
        obj := Some(o);
      } else {
        var i := 0;
        while i < |active| && active[i].active
          invariant 0 <= i <= |active| && forall k :: 0 <= k < i ==> active[k].active
        {
          i := i + 1;
        }
        if i < |active| {
          var o := active[i];
          NoDupRemoveAt(active, i);
          active := RemoveAt(active, i);
          assert pool + active == active;
          o.active := true;
          obj := Some(o);
        } else {
          obj := None;
        }
      }
    }

    /** An inactive object is left alone.  An active one is deactivated,
        taken out of the in-use list if it is there, and pushed onto the free
        list only while that is below `maxSize`.  (resetObject has no body
        here: no concrete pool derives from this one.) */
    method Release(obj: GameObject)
      requires Valid()
      modifies this, obj`active
      ensures Valid()
      ensures !old(obj.active) ==> pool == old(pool) && active == old(active) && !obj.active
      ensures old(obj.active) ==>
        !obj.active &&
        active == (if obj in old(active) then RemoveAt(old(active), IndexOf(old(active), obj)) else old(active)) &&
        pool == (if |old(pool)| < maxSize then old(pool) + [obj] else old(pool))
    {
      if !obj.active {
        return;
      }
      NoDupSplit(pool, active);
      assert obj !in pool;
      obj.active := false;
      var index := IndexOf(active, obj);
      if index != -1 {
        NoDupRemoveAt(active, index);
        active := RemoveAt(active, index);
      }
      if |pool| < maxSize {
        NoDupJoin(old(pool), [obj]);
        pool := pool + [obj];
      }
      NoDupJoin(pool, active);
    }

    /** Walks the in-use list from its end and releases every active object
        that is off the 800 by 600 screen; inactive objects stay in use,
        since releasing them does nothing.  (The objects' own update has no
        body here.) */
    method Update()
      requires Valid()
      modifies this, (set o | o in active)`active
      ensures Valid()
      ensures active == Kept(old(active), old(SweepKeeps(active)))
      ensures pool == Fill(old(pool), DroppedBackwards(old(active), old(SweepKeeps(active))), maxSize)
      ensures forall k :: 0 <= k < |old(active)| ==>
        old(active)[k].active == (old(active[k].active) && old(SweepKeeps(active))[k])
    {
      ghost var act := active;
      ghost var keep := SweepKeeps(active);
      ghost var live := Flags(active);
      ghost var free := pool;
      NoDupSplit(pool, active);
      var i := |active| - 1;
      while i >= 0
        invariant -1 <= i < |act| && Valid() && NoDup(act)
        invariant active == act[..i + 1] + Kept(act[i + 1..], keep[i + 1..])
        invariant pool == Fill(free, DroppedBackwards(act[i + 1..], keep[i + 1..]), maxSize)
        invariant forall k :: 0 <= k <= i ==> act[k].active == live[k]
        invariant forall k :: i < k < |act| ==> act[k].active == (live[k] && keep[k])
      {
        SweepAt(i, act, keep, live, free);
        i := i - 1;
      }
      assert act[..0] == [] && act[0..] == act && keep[0..] == keep;
      assert keep == old(SweepKeeps(active));
      assert active == Kept(act, keep);
      assert pool == Fill(free, DroppedBackwards(act, keep), maxSize);
    }

    /** One iteration of Update's backward sweep, at position `i`. */
    method SweepAt(i: int, ghost act: seq<GameObject>, ghost keep: seq<bool>, ghost live: seq<bool>,
                   ghost free: seq<GameObject>)
      requires Valid() && 0 <= i < |act| == |keep| == |live| && NoDup(act)
      requires keep[i] == !(live[i] && act[i].IsOffScreen(CANVAS_WIDTH, CANVAS_HEIGHT))
      requires active == act[..i + 1] + Kept(act[i + 1..], keep[i + 1..])
      requires pool == Fill(free, DroppedBackwards(act[i + 1..], keep[i + 1..]), maxSize)
      requires forall k :: 0 <= k <= i ==> act[k].active == live[k]
      requires forall k :: i < k < |act| ==> act[k].active == (live[k] && keep[k])
      modifies this, {act[i]}`active
      ensures Valid()
      ensures active == act[..(i - 1) + 1] + Kept(act[(i - 1) + 1..], keep[(i - 1) + 1..])
      ensures pool == Fill(free, DroppedBackwards(act[(i - 1) + 1..], keep[(i - 1) + 1..]), maxSize)
      ensures forall k :: 0 <= k <= i - 1 ==> act[k].active == live[k]
      ensures forall k :: i - 1 < k < |act| ==> act[k].active == (live[k] && keep[k])
    {
      NoDupSplit(pool, active);
      SweepLists(act, keep, i, free, active, pool, maxSize);
      var o := active[i];
      if !o.active {
        Release(o);
      } else if o.IsOffScreen(CANVAS_WIDTH, CANVAS_HEIGHT) {
        Release(o);
      }
    }

    /** The for-of loop of clear: it visits the in-use list by index while
        each release of an active object shortens it, so the entry after
        every released one is skipped and stays in use (ClearWalk).  An old
        in-use object ends up active exactly when it was active and is still
        in use. */
    method Clear()
      requires Valid()
      modifies this, (set o | o in active)`active
      ensures Valid()
      ensures active == Kept(old(active), ClearStays(old(Flags(active))))
      ensures pool == Fill(old(pool), Dropped(old(active), ClearStays(old(Flags(active)))), maxSize)
      ensures forall o :: o in old(active) ==> o.active == (old(o.active) && o in active)
    {
      ghost var act := active;
      ghost var live := Flags(active);
      ghost var free := pool;
      ghost var l := live;
      ghost var dropped: seq<GameObject> := [];
      var i := 0;
      while i < |active|
        invariant Valid() && |l| == |active| && |live| == |act|
        invariant ClearFrom(active, l, i) == ClearFrom(act, live, 0)
        invariant dropped + ReleasedFrom(active, l, i) == ReleasedFrom(act, live, 0)
        invariant pool == Fill(free, dropped, maxSize)
        invariant forall k :: 0 <= k < |active| ==> active[k].active == l[k]
        invariant forall o :: o in active ==> o in act
        invariant forall k :: 0 <= k < |act| ==> act[k].active == (live[k] && act[k] in active)
        decreases |active| - i
      {
        l, dropped := ClearAt(i, l, act, live, free, dropped);
        i := i + 1;
      }
      ClearDone(act, live, active, l, i, dropped, free, pool, maxSize);
      assert live == old(Flags(active));
    }

    /** One visit of clear's loop, at index `i` of the in-use list whose
        current flags are `l`; `dropped` is what the visits so far released. */
    method ClearAt(i: int, ghost l: seq<bool>, ghost act: seq<GameObject>, ghost live: seq<bool>,
                   ghost free: seq<GameObject>, ghost dropped: seq<GameObject>)
      returns (ghost l': seq<bool>, ghost dropped': seq<GameObject>)
      requires Valid() && |l| == |active| && |live| == |act| && 0 <= i < |active|
      requires ClearFrom(active, l, i) == ClearFrom(act, live, 0)
      requires dropped + ReleasedFrom(active, l, i) == ReleasedFrom(act, live, 0)
      requires pool == Fill(free, dropped, maxSize)
      requires forall k :: 0 <= k < |active| ==> active[k].active == l[k]
      requires forall o :: o in active ==> o in act
      requires forall k :: 0 <= k < |act| ==> act[k].active == (live[k] && act[k] in active)
      modifies this, {active[i]}`active
      ensures Valid() && |l'| == |active| <= old(|active|)
      ensures ClearFrom(active, l', i + 1) == ClearFrom(act, live, 0)
      ensures dropped' + ReleasedFrom(active, l', i + 1) == ReleasedFrom(act, live, 0)
      ensures pool == Fill(free, dropped', maxSize)
      ensures forall k :: 0 <= k < |active| ==> active[k].active == l'[k]
      ensures forall o :: o in active ==> o in act
      ensures forall k :: 0 <= k < |act| ==> act[k].active == (live[k] && act[k] in active)
    {
      NoDupSplit(pool, active);
      var o := active[i];
      ghost var before := active;
      if o.active {
        IndexOfNoDup(active, i);
        FillPush(pool, free, dropped, o, maxSize);
        assert (dropped + [o]) + ReleasedFrom(RemoveAt(active, i), RemoveAt(l, i), i + 1)
          == dropped + ReleasedFrom(active, l, i);
        l', dropped' := RemoveAt(l, i), dropped + [o];
      } else {
        l', dropped' := l, dropped;
      }
      Release(o);
      if old(o.active) {
        assert forall x :: x in active <==> x in before && x != o by {
          NoDupRemoveAt(before, i);
        }
      }
      forall k | 0 <= k < |active|
        ensures active[k].active == l'[k]
      {
        assert active[k] in before;
      }
      forall k | 0 <= k < |act|
        ensures act[k].active == (live[k] && act[k] in active)
      {
        if act[k] != o {
          assert act[k].active == old(act[k].active);
        }
      }
    }

    function GetActiveCount(): (n: nat)
      reads this
      ensures n == |active|
    {
      |active|
    }

    /** The number of free objects, never above `maxSize`. */
    function GetPoolSize(): (n: nat)
      requires Valid()
      reads this, set o | o in pool
      ensures n == |pool| && n <= Max0(maxSize)
    {
      |pool|
    }
  }

  /** One step of the backward sweep at position `i`: element `i` is the last
      of the unswept prefix of the in-use list; keeping it or cutting it out
      extends the swept suffix by one. */
  lemma {:induction false} SweepPosition<T>(act: seq<T>, keep: seq<bool>, i: int, active: seq<T>)
    requires 0 <= i < |act| == |keep| && NoDup(active)
    requires active == act[..i + 1] + Kept(act[i + 1..], keep[i + 1..])
    ensures i < |active| && active[i] == act[i] && act[i] in active && IndexOf(active, act[i]) == i
    ensures keep[i] ==> active == act[..(i - 1) + 1] + Kept(act[(i - 1) + 1..], keep[(i - 1) + 1..])
    ensures !keep[i] ==> RemoveAt(active, i) == act[..(i - 1) + 1] + Kept(act[(i - 1) + 1..], keep[(i - 1) + 1..])
    ensures DroppedBackwards(act[(i - 1) + 1..], keep[(i - 1) + 1..]) ==
      DroppedBackwards(act[i + 1..], keep[i + 1..]) + (if keep[i] then [] else [act[i]])
  {
    KeptAt(act, keep, i);
    assert active[i] == act[i];
    IndexOfNoDup(active, i);
    if keep[i] {
      SweepKeep(act, keep, i);
    } else {
      SweepDrop(act, keep, i);
    }
  }

  /** The free list after a push under the capacity rule, with the pushed
      sequences named. */
  lemma {:induction false} FillNext<T>(pool: seq<T>, free: seq<T>, d: seq<T>, d': seq<T>, x: T, pushed: bool, cap: int)
    requires pool == Fill(free, d, cap)
    requires d' == d + (if pushed then [x] else [])
    ensures pushed ==> (if |pool| < cap then pool + [x] else pool) == Fill(free, d', cap)
    ensures !pushed ==> pool == Fill(free, d', cap)
  {
    if pushed {
      FillPush(pool, free, d, x, cap);
    } else {
      assert d' == d;
    }
  }

  /** The lists after one step of the backward sweep at position `i`, in
      the shapes Release produces. */
  lemma {:induction false} SweepLists<T>(act: seq<T>, keep: seq<bool>, i: int, free: seq<T>,
                      active: seq<T>, pool: seq<T>, cap: int)
    requires 0 <= i < |act| == |keep| && NoDup(active)
    requires active == act[..i + 1] + Kept(act[i + 1..], keep[i + 1..])
    requires pool == Fill(free, DroppedBackwards(act[i + 1..], keep[i + 1..]), cap)
    ensures i < |active| && active[i] == act[i] && act[i] in active && IndexOf(active, act[i]) == i
    ensures keep[i] ==>
      active == act[..(i - 1) + 1] + Kept(act[(i - 1) + 1..], keep[(i - 1) + 1..]) &&
      pool == Fill(free, DroppedBackwards(act[(i - 1) + 1..], keep[(i - 1) + 1..]), cap)
    ensures !keep[i] ==>
      RemoveAt(active, i) == act[..(i - 1) + 1] + Kept(act[(i - 1) + 1..], keep[(i - 1) + 1..]) &&
      (if |pool| < cap then pool + [act[i]] else pool) ==
        Fill(free, DroppedBackwards(act[(i - 1) + 1..], keep[(i - 1) + 1..]), cap)
  {
    SweepPosition(act, keep, i, active);
    FillNext(pool, free, DroppedBackwards(act[i + 1..], keep[i + 1..]),
             DroppedBackwards(act[(i - 1) + 1..], keep[(i - 1) + 1..]), act[i], !keep[i], cap);
  }

  /** The for-of loop of clear from index `i` of list `a`, flags `l`: a live
      entry is released and spliced out, which moves its successor into slot
      `i`; the loop then goes on at `i + 1`.  The list left in use. */
  function ClearFrom<T>(a: seq<T>, l: seq<bool>, i: nat): (r: seq<T>)
    requires |a| == |l|
    ensures |r| <= |a|
    decreases |a| - i
  {
    if i >= |a| then a
    else if !l[i] then ClearFrom(a, l, i + 1)
    else ClearFrom(RemoveAt(a, i), RemoveAt(l, i), i + 1)
  }

  /** The entries the same walk releases, in release order. */
  function ReleasedFrom<T>(a: seq<T>, l: seq<bool>, i: nat): (r: seq<T>)
    requires |a| == |l|
    ensures |r| <= |a|
    decreases |a| - i
  {
    if i >= |a| then []
    else if !l[i] then ReleasedFrom(a, l, i + 1)
    else [a[i]] + ReleasedFrom(RemoveAt(a, i), RemoveAt(l, i), i + 1)
  }

  /** When clear's loop stops, the lists are those the walk over the
      original in-use list describes. */
  lemma {:induction false} ClearDone<T>(act: seq<T>, live: seq<bool>, active: seq<T>, l: seq<bool>, i: int,
                                        dropped: seq<T>, free: seq<T>, pool: seq<T>, cap: int)
    requires |act| == |live| && |active| == |l| && 0 <= i && |active| <= i
    requires ClearFrom(active, l, i) == ClearFrom(act, live, 0)
    requires dropped + ReleasedFrom(active, l, i) == ReleasedFrom(act, live, 0)
    requires pool == Fill(free, dropped, cap)
    ensures active == Kept(act, ClearStays(live))
    ensures pool == Fill(free, Dropped(act, ClearStays(live)), cap)
  {
    assert ClearFrom(active, l, i) == active && ReleasedFrom(active, l, i) == [];
    ClearWalk([], [], act, live);
    assert [] + act == act && [] + live == live && dropped + [] == dropped;
  }

  /** The walk from the end of a visited prefix `p` keeps `p` and then
      exactly the entries of the rest that ClearStays marks, and releases
      the others. */
  lemma {:induction false} ClearWalk<T>(p: seq<T>, lp: seq<bool>, s: seq<T>, ls: seq<bool>)
    requires |p| == |lp| && |s| == |ls|
    ensures ClearFrom(p + s, lp + ls, |p|) == p + Kept(s, ClearStays(ls))
    ensures ReleasedFrom(p + s, lp + ls, |p|) == Dropped(s, ClearStays(ls))
    decreases |s|, 1
  {
    if s == [] {
      assert p + s == p && lp + ls == lp;
    } else if !ls[0] {
      ClearWalkInactive(p, lp, s, ls);
    } else if |s| == 1 {
      ClearWalkLast(p, lp, s, ls);
    } else {
      ClearWalkPair(p, lp, s, ls);
    }
  }

  /** ClearWalk when the first entry after `p` is inactive: it is stepped over. */
  lemma {:induction false} ClearWalkInactive<T>(p: seq<T>, lp: seq<bool>, s: seq<T>, ls: seq<bool>)
    requires |p| == |lp| && |s| == |ls| && s != [] && !ls[0]
    ensures ClearFrom(p + s, lp + ls, |p|) == p + Kept(s, ClearStays(ls))
    ensures ReleasedFrom(p + s, lp + ls, |p|) == Dropped(s, ClearStays(ls))
    decreases |s|, 0
  {
    ClearWalk(p + [s[0]], lp + [ls[0]], s[1..], ls[1..]);
    ShiftHead(p, s);
    ShiftHead(lp, ls);
    ClearMarksInactive(p, s, ls);
    assert !(lp + ls)[|p|];
  }

  /** ClearWalk when the first entry after `p` is active and last: the walk
      releases it and stops. */
  lemma {:induction false} ClearWalkLast<T>(p: seq<T>, lp: seq<bool>, s: seq<T>, ls: seq<bool>)
    requires |p| == |lp| && |s| == |ls| == 1 && ls[0]
    ensures ClearFrom(p + s, lp + ls, |p|) == p + Kept(s, ClearStays(ls))
    ensures ReleasedFrom(p + s, lp + ls, |p|) == Dropped(s, ClearStays(ls))
  {
    RemoveAtHead(p, s);
    RemoveAtHead(lp, ls);
    ClearMarksLast(p, s, ls);
    assert (lp + ls)[|p|];
  }

  /** ClearWalk when the first entry after `p` is active and has a
      successor: the walk releases it and skips the successor. */
  lemma {:induction false} ClearWalkPair<T>(p: seq<T>, lp: seq<bool>, s: seq<T>, ls: seq<bool>)
    requires |p| == |lp| && |s| == |ls| && 1 < |s| && ls[0]
    ensures ClearFrom(p + s, lp + ls, |p|) == p + Kept(s, ClearStays(ls))
    ensures ReleasedFrom(p + s, lp + ls, |p|) == Dropped(s, ClearStays(ls))
    decreases |s|, 0
  {
    ClearWalk(p + [s[1]], lp + [ls[1]], s[2..], ls[2..]);
    RemoveAtHead(p, s);
    RemoveAtHead(lp, ls);
    ClearMarksPair(p, s, ls);
    assert (lp + ls)[|p|] && (p + s)[|p|] == s[0];
  }

  /** An inactive entry stays. */
  lemma {:induction false} ClearMarksInactive<T>(p: seq<T>, s: seq<T>, ls: seq<bool>)
    requires |s| == |ls| && s != [] && !ls[0]
    ensures p + Kept(s, ClearStays(ls)) == (p + [s[0]]) + Kept(s[1..], ClearStays(ls[1..]))
    ensures Dropped(s, ClearStays(ls)) == Dropped(s[1..], ClearStays(ls[1..]))
  {
    var m := ClearStays(ls);
    assert m[0] && m[1..] == ClearStays(ls[1..]);
    assert Kept(s, m) == [s[0]] + Kept(s[1..], m[1..]);
  }

  /** An active last entry is released. */
  lemma {:induction false} ClearMarksLast<T>(p: seq<T>, s: seq<T>, ls: seq<bool>)
    requires |s| == |ls| == 1 && ls[0]
    ensures p + Kept(s, ClearStays(ls)) == p
    ensures Dropped(s, ClearStays(ls)) == [s[0]]
  {
    assert ClearStays(ls) == [false];
    assert p + [] == p;
  }

  /** An active entry is released and its successor stays. */
  lemma {:induction false} ClearMarksPair<T>(p: seq<T>, s: seq<T>, ls: seq<bool>)
    requires |s| == |ls| && 1 < |s| && ls[0]
    ensures p + Kept(s, ClearStays(ls)) == (p + [s[1]]) + Kept(s[2..], ClearStays(ls[2..]))
    ensures Dropped(s, ClearStays(ls)) == [s[0]] + Dropped(s[2..], ClearStays(ls[2..]))
  {
    var m := ClearStays(ls);
    assert !m[0] && m[1] && m[2..] == ClearStays(ls[2..]) by {
      assert m == [false, true] + ClearStays(ls[2..]);
    }
    assert s[1..][1..] == s[2..] && m[1..][1..] == m[2..];
    assert Kept(s, m) == [s[1]] + Kept(s[2..], m[2..]);
  }
}
