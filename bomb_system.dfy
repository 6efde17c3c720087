// The bomb scheduler: a handful of aliens are armed as droppers, each with
// its own cooldown; a periodic refresh retires droppers whose alien is gone
// and recruits one more, and on every frame each due dropper releases a bomb
// until the in-flight cap is reached.
module BombSystems {
  import opened GameTypes
  import opened GameConstants
  import opened GameObjects
  import opened SeqUtil
  import opened RandomSource
  import opened Aliens
  import opened Bombs
  import opened BombPools

  /** Most aliens armed as droppers at one time. */
  const MAX_DROPPERS: nat := 5

  /** An armed alien with the time of its last bomb and its current cooldown. */
  datatype BombDropper = BombDropper(alien: Alien, lastBombTime: real, bombCooldown: real)

  /** A cooldown made from one draw: two seconds plus up to three more. */
  function Cooldown(r: Draw): (c: real)
    ensures 2000.0 <= c < 5000.0
  {
    2000.0 + r * 3000.0
  }

  /** The index a draw selects among `n` candidates (Math.floor(r * n)). */
  function Pick(r: Draw, n: nat): (k: int)
    requires n > 0
    ensures 0 <= k < n
  {
    var f := (r * n as real).Floor;
    assert f as real <= r * n as real < n as real;
    f
  }

  /** The in-flight cap for a level: three bombs, four from level five on. */
  function MaxBombsFor(level: int): (m: int)
    ensures m <= 4
    ensures level >= 5 ==> m == 4
    ensures 0 <= level < 5 ==> m == 3
    ensures level < 0 ==> m < 3
  {
    var raised := 3 + level / 5;
    if raised < 4 then raised else 4
  }

  /** How often the droppers are refreshed at a level: every two seconds,
      100 ms sooner per level, never more often than once a second. */
  function CheckIntervalFor(level: int): (interval: int)
    ensures interval >= 1000
    ensures level >= 10 ==> interval == 1000
    ensures level <= 10 ==> interval == 2000 - 100 * level
  {
    var shortened := 2000 - level * 100;
    if shortened > 1000 then shortened else 1000
  }

  /** Harder levels never allow fewer bombs in flight. */
  lemma {:induction false} MaxBombsMonotone(l1: int, l2: int)
    requires l1 <= l2
    ensures MaxBombsFor(l1) <= MaxBombsFor(l2)
  {
    assert l1 / 5 <= l2 / 5 by {
      assert (l1 / 5) * 5 <= l1 <= l2 < (l2 / 5) * 5 + 5;
    }
  }

  /** Harder levels never refresh the droppers less often. */
  lemma {:induction false} CheckIntervalMonotone(l1: int, l2: int)
    requires l1 <= l2
    ensures CheckIntervalFor(l2) <= CheckIntervalFor(l1)
  {
  }

  /** The active aliens of `s`, in order (aliens.filter(alien => alien.active)). */
  function ActiveAliens(s: seq<Alien>): (r: seq<Alien>)
    reads set a | a in s :: a.obj
    ensures |r| <= |s|
    ensures forall k :: 0 <= k < |r| ==> r[k] in s && r[k].obj.active
  {
    if s == [] then []
    else
      assert s == [s[0]] + s[1..];
      (if s[0].obj.active then [s[0]] else []) + ActiveAliens(s[1..])
  }

  /** An alien survives the filter exactly when it is in the input and active. */
  lemma {:induction false} ActiveAliensMembers(s: seq<Alien>)
    ensures forall a :: a in ActiveAliens(s) <==> a in s && a.obj.active
    decreases |s|
  {
    if s != [] {
      assert s == [s[0]] + s[1..];
      ActiveAliensMembers(s[1..]);
    }
  }

  /** Filtering keeps distinct aliens distinct. */
  lemma {:induction false} ActiveAliensNoDup(s: seq<Alien>)
    requires NoDup(s)
    ensures NoDup(ActiveAliens(s))
    decreases |s|
  {
    if s != [] {
      assert s == [s[0]] + s[1..];
      NoDupSplit([s[0]], s[1..]);
      ActiveAliensNoDup(s[1..]);
      ActiveAliensMembers(s[1..]);
      var head := if s[0].obj.active then [s[0]] else [];
      NoDupJoin(head, ActiveAliens(s[1..]));
    }
  }

  /** The identities (the GameObject ids) of the droppers' aliens. */
  function IdsOf(ds: seq<BombDropper>): (r: seq<GameObject>)
    ensures |r| == |ds| && forall k :: 0 <= k < |ds| ==> r[k] == ds[k].alien.obj
  {
    if ds == [] then [] else [ds[0].alien.obj] + IdsOf(ds[1..])
  }

  lemma {:induction false} IdsOfAppend(a: seq<BombDropper>, b: seq<BombDropper>)
    ensures IdsOf(a + b) == IdsOf(a) + IdsOf(b)
  {
    assert forall k :: 0 <= k < |a + b| ==> IdsOf(a + b)[k] == (IdsOf(a) + IdsOf(b))[k];
  }

  /** The droppers whose alien is still active, in order. */
  function LiveDroppers(ds: seq<BombDropper>): (r: seq<BombDropper>)
    reads set d | d in ds :: d.alien.obj
    ensures |r| <= |ds|
    ensures forall k :: 0 <= k < |r| ==> r[k] in ds && r[k].alien.obj.active
  {
    if ds == [] then []
    else
      assert ds == [ds[0]] + ds[1..];
      (if ds[0].alien.obj.active then [ds[0]] else []) + LiveDroppers(ds[1..])
  }

  /** A dropper is kept exactly when its alien is still active. */
  lemma {:induction false} LiveDroppersMembers(ds: seq<BombDropper>)
    ensures forall d :: d in LiveDroppers(ds) <==> d in ds && d.alien.obj.active
    decreases |ds|
  {
    if ds != [] {
      assert ds == [ds[0]] + ds[1..];
      LiveDroppersMembers(ds[1..]);
    }
  }

  /** Pruning keeps the ids distinct and brings in no new id. */
  lemma {:induction false} LiveDroppersIds(ds: seq<BombDropper>)
    ensures forall o :: o in IdsOf(LiveDroppers(ds)) ==> o in IdsOf(ds)
    ensures NoDup(IdsOf(ds)) ==> NoDup(IdsOf(LiveDroppers(ds)))
    decreases |ds|
  {
    if ds != [] {
      assert ds == [ds[0]] + ds[1..];
      var head := if ds[0].alien.obj.active then [ds[0]] else [];
      LiveDroppersIds(ds[1..]);
      IdsOfAppend([ds[0]], ds[1..]);
      IdsOfAppend(head, LiveDroppers(ds[1..]));
      if NoDup(IdsOf(ds)) {
        NoDupSplit(IdsOf([ds[0]]), IdsOf(ds[1..]));
        NoDupJoin(IdsOf(head), IdsOf(LiveDroppers(ds[1..])));
      }
    }
  }

  /** The aliens of `s` whose id is not in `taken`, in order. */
  function Without(s: seq<Alien>, taken: seq<GameObject>): (r: seq<Alien>)
    ensures |r| <= |s|
    ensures forall k :: 0 <= k < |r| ==> r[k] in s && r[k].obj !in taken
  {
    if s == [] then []
    else
      assert s == [s[0]] + s[1..];
      (if s[0].obj !in taken then [s[0]] else []) + Without(s[1..], taken)
  }

  /** An alien is available exactly when it is in the input and its id is not taken. */
  lemma {:induction false} WithoutMembers(s: seq<Alien>, taken: seq<GameObject>)
    ensures forall a :: a in Without(s, taken) <==> a in s && a.obj !in taken
    decreases |s|
  {
    if s != [] {
      assert s == [s[0]] + s[1..];
      WithoutMembers(s[1..], taken);
    }
  }

  /** An available alien belongs to the input, is active, and is not taken. */
  lemma {:induction false} AvailableMembers(aliens: seq<Alien>, taken: seq<GameObject>, a: Alien)
    requires a in Without(ActiveAliens(aliens), taken)
    ensures a in aliens && a.obj.active && a.obj !in taken
  {
    WithoutMembers(ActiveAliens(aliens), taken);
    ActiveAliensMembers(aliens);
  }

  /** The dropper after it released a bomb at time `now`, re-armed with cooldown `c`. */
  function Rearmed(d: BombDropper, now: int, c: real): BombDropper {
    d.(lastBombTime := now as real, bombCooldown := c)
  }

  /** What a pass over the droppers sees of one dropper's alien as it
      starts: whether the alien is in play, and where a bomb dropped from it
      appears (the centre of its bottom edge, less half a bomb's width). */
  datatype Sight = Sight(alive: bool, x: real, y: real)

  ghost function SightOf(a: Alien): (s: Sight)
    reads a.obj
    ensures s.alive == a.obj.active
  {
    Sight(a.obj.active, a.obj.x + a.obj.width / 2.0 - 2.0, a.obj.y + a.obj.height)
  }

  /** The sights of the droppers' aliens, position by position. */
  ghost function Sights(ds: seq<BombDropper>): (r: seq<Sight>)
    reads set d | d in ds :: d.alien.obj
    ensures |r| == |ds|
    ensures forall k :: 0 <= k < |ds| ==> r[k] == SightOf(ds[k].alien)
  {
    seq(|ds|, k requires 0 <= k < |ds| reads set d | d in ds :: d.alien.obj => SightOf(ds[k].alien))
  }

  /** Dropper `k` of a pass whose sights are `s` is due: its alien is in
      play and its cooldown has run out. */
  predicate Due(d: BombDropper, s: seq<Sight>, k: int, now: int) {
    0 <= k < |s| && s[k].alive && now as real - d.lastBombTime >= d.bombCooldown
  }

  /** Which of the first `i` droppers of `ds`, visited in order, release a
      bomb when `room` more bombs fit in flight: each due dropper, until
      `room` have fired. */
  function Plan(ds: seq<BombDropper>, s: seq<Sight>, now: int, room: int, i: nat): (p: seq<int>)
    requires i <= |ds|
    ensures room <= 0 ==> p == []
    ensures room > 0 ==> |p| <= room
  {
    if i == 0 then []
    else
      var p := Plan(ds, s, now, room, i - 1);
      if |p| < room && Due(ds[i - 1], s, i - 1, now) then p + [i - 1] else p
  }

  /** The plan names droppers among the first `i`, each once, in the order visited. */
  lemma {:induction false} PlanOrdered(ds: seq<BombDropper>, s: seq<Sight>, now: int, room: int, i: nat)
    requires i <= |ds|
    ensures forall j :: 0 <= j < |Plan(ds, s, now, room, i)| ==> 0 <= Plan(ds, s, now, room, i)[j] < i
    ensures forall j, l :: 0 <= j < l < |Plan(ds, s, now, room, i)| ==> Plan(ds, s, now, room, i)[j] < Plan(ds, s, now, room, i)[l]
  {
    if i > 0 {
      PlanOrdered(ds, s, now, room, i - 1);
    }
  }

  /** Only droppers among the first `i` are in the plan for them. */
  lemma {:induction false} PlanBelow(ds: seq<BombDropper>, s: seq<Sight>, now: int, room: int, i: nat)
    requires i <= |ds|
    ensures forall x :: x in Plan(ds, s, now, room, i) ==> 0 <= x < i
  {
    if i > 0 {
      PlanBelow(ds, s, now, room, i - 1);
    }
  }

  /** Once `room` droppers have fired, later droppers add nothing. */
  lemma {:induction false} PlanSaturated(ds: seq<BombDropper>, s: seq<Sight>, now: int, room: int, j: nat, n: nat)
    requires j <= n <= |ds| && |Plan(ds, s, now, room, j)| >= room
    ensures Plan(ds, s, now, room, n) == Plan(ds, s, now, room, j)
    decreases n - j
  {
    if j < n {
      PlanSaturated(ds, s, now, room, j, n - 1);
    }
  }

  /** The plan of fewer droppers is a prefix of the plan of more, and the
      rest of the longer plan lies beyond the shorter prefix. */
  lemma {:induction false} PlanPrefix(ds: seq<BombDropper>, s: seq<Sight>, now: int, room: int, k: nat, n: nat)
    requires k <= n <= |ds|
    ensures |Plan(ds, s, now, room, k)| <= |Plan(ds, s, now, room, n)|
    ensures Plan(ds, s, now, room, n)[..|Plan(ds, s, now, room, k)|] == Plan(ds, s, now, room, k)
    ensures forall j :: |Plan(ds, s, now, room, k)| <= j < |Plan(ds, s, now, room, n)| ==> Plan(ds, s, now, room, n)[j] >= k
    decreases n - k
  {
    if k == n {
      assert Plan(ds, s, now, room, n)[..|Plan(ds, s, now, room, n)|] == Plan(ds, s, now, room, n);
    } else {
      PlanPrefix(ds, s, now, room, k, n - 1);
    }
  }

  /** A dropper fires exactly when it is due and fewer than `room` droppers
      before it have fired. */
  lemma {:induction false} PlanMeaning(ds: seq<BombDropper>, s: seq<Sight>, now: int, room: int, n: nat, k: int)
    requires n <= |ds| && 0 <= k < n
    ensures k in Plan(ds, s, now, room, n) <==> Due(ds[k], s, k, now) && |Plan(ds, s, now, room, k)| < room
  {
    PlanPrefix(ds, s, now, room, k + 1, n);
    PlanOrdered(ds, s, now, room, k);
    var p := Plan(ds, s, now, room, n);
    var q := Plan(ds, s, now, room, k + 1);
    assert forall j :: |q| <= j < |p| ==> p[j] != k;
    assert k in p <==> k in q by {
      if k in p {
        var j :| 0 <= j < |p| && p[j] == k;
        assert j < |q| && q[j] == k;
      }
      if k in q {
        var j :| 0 <= j < |q| && q[j] == k;
        assert p[j] == k;
      }
    }
  }

  /** The droppers after the first `i` have been visited: a dropper that
      fires is re-armed at `now` with a cooldown from the draw numbered by
      how many fired before it; the others are as they were. */
  function Rearm(ds: seq<BombDropper>, s: seq<Sight>, now: int, room: int, rng: Stream, i: nat): (r: seq<BombDropper>)
    requires i <= |ds|
    ensures |r| == |ds|
  {
    if i == 0 then ds
    else
      var r := Rearm(ds, s, now, room, rng, i - 1);
      var p := Plan(ds, s, now, room, i - 1);
      if |p| < room && Due(ds[i - 1], s, i - 1, now)
      then r[i - 1 := Rearmed(ds[i - 1], now, Cooldown(rng.At(rng.next + |p|)))]
      else r
  }

  /** Once `room` droppers have fired, the droppers after them are untouched. */
  lemma {:induction false} RearmSaturated(ds: seq<BombDropper>, s: seq<Sight>, now: int, room: int, rng: Stream, j: nat, n: nat)
    requires j <= n <= |ds| && |Plan(ds, s, now, room, j)| >= room
    ensures Rearm(ds, s, now, room, rng, n) == Rearm(ds, s, now, room, rng, j)
    decreases n - j
  {
    if j < n {
      RearmSaturated(ds, s, now, room, rng, j, n - 1);
      PlanSaturated(ds, s, now, room, j, n - 1);
    }
  }

  /** Dropper `k` once the first `n` have been visited: re-armed with the
      draw numbered by the droppers that fired before it when it fires,
      unchanged otherwise. */
  lemma {:induction false} RearmMeaning(ds: seq<BombDropper>, s: seq<Sight>, now: int, room: int, rng: Stream, n: nat, k: int)
    requires n <= |ds| && 0 <= k < |ds|
    ensures Rearm(ds, s, now, room, rng, n)[k] ==
      if k in Plan(ds, s, now, room, n)
      then Rearmed(ds[k], now, Cooldown(rng.At(rng.next + |Plan(ds, s, now, room, k)|)))
      else ds[k]
    decreases n, 1
  {
    if k >= n {
      NothingYet(ds, s, now, room, rng, n, k);
      PlanBelow(ds, s, now, room, n);
    } else if k == n - 1 {
      RearmLast(ds, s, now, room, rng, n);
    } else {
      RearmEarlier(ds, s, now, room, rng, n, k);
    }
  }

  /** RearmMeaning for the dropper visited last. */
  lemma {:induction false} RearmLast(ds: seq<BombDropper>, s: seq<Sight>, now: int, room: int, rng: Stream, n: nat)
    requires 0 < n <= |ds|
    ensures Rearm(ds, s, now, room, rng, n)[n - 1] ==
      if n - 1 in Plan(ds, s, now, room, n)
      then Rearmed(ds[n - 1], now, Cooldown(rng.At(rng.next + |Plan(ds, s, now, room, n - 1)|)))
      else ds[n - 1]
  {
    NothingYet(ds, s, now, room, rng, n - 1, n - 1);
    PlanBelow(ds, s, now, room, n - 1);
  }

  /** RearmMeaning for a dropper visited before the last. */
  lemma {:induction false} RearmEarlier(ds: seq<BombDropper>, s: seq<Sight>, now: int, room: int, rng: Stream, n: nat, k: int)
    requires 0 <= k < n - 1 && n <= |ds|
    ensures Rearm(ds, s, now, room, rng, n)[k] ==
      if k in Plan(ds, s, now, room, n)
      then Rearmed(ds[k], now, Cooldown(rng.At(rng.next + |Plan(ds, s, now, room, k)|)))
      else ds[k]
    decreases n, 0
  {
    var p := Plan(ds, s, now, room, n - 1);
    assert Plan(ds, s, now, room, n) == p || Plan(ds, s, now, room, n) == p + [n - 1];
    assert k in Plan(ds, s, now, room, n) <==> k in p;
    assert Rearm(ds, s, now, room, rng, n)[k] == Rearm(ds, s, now, room, rng, n - 1)[k];
    RearmMeaning(ds, s, now, room, rng, n - 1, k);
  }

  /** A dropper not yet visited is as it was. */
  lemma {:induction false} NothingYet(ds: seq<BombDropper>, s: seq<Sight>, now: int, room: int, rng: Stream, n: nat, k: int)
    requires n <= k < |ds|
    ensures Rearm(ds, s, now, room, rng, n)[k] == ds[k]
  {
    if n > 0 {
      NothingYet(ds, s, now, room, rng, n - 1, k);
    }
  }

  /** With no room left, a pass changes no dropper. */
  lemma {:induction false} NothingFits(ds: seq<BombDropper>, s: seq<Sight>, now: int, room: int, rng: Stream, n: nat)
    requires room <= 0 && n <= |ds|
    ensures Rearm(ds, s, now, room, rng, n) == ds
  {
    if n > 0 {
      NothingFits(ds, s, now, room, rng, n - 1);
    }
  }

  /** Bomb `b` is in play at the spot a sight `s` names. */
  ghost predicate DroppedAt(b: Bomb, s: Sight)
    reads b.obj
  {
    b.obj.active && b.obj.x == s.x && b.obj.y == s.y
  }

  /** After the first `c0` bombs of `bombs` come exactly one bomb per
      dropper of `plan`, in order, each dropped by that dropper. */
  ghost predicate Landed(bombs: seq<Bomb>, c0: int, plan: seq<int>, s: seq<Sight>)
    reads set b | b in bombs :: b.obj
  {
    0 <= c0 && |bombs| == c0 + |plan| &&
    forall j :: 0 <= j < |plan| ==> 0 <= plan[j] < |s| && DroppedAt(bombs[c0 + j], s[plan[j]])
  }

  lemma {:induction false} LandedSnoc(bombs: seq<Bomb>, c0: int, plan: seq<int>, s: seq<Sight>, b: Bomb, i: int)
    requires Landed(bombs, c0, plan, s) && 0 <= i < |s| && DroppedAt(b, s[i])
    ensures Landed(bombs + [b], c0, plan + [i], s)
  {
    assert forall k :: 0 <= k < |bombs| ==> (bombs + [b])[k] == bombs[k];
  }

  /** What a refresh makes of the live droppers `kept`, with `free` the
      active aliens that are not droppers and `inFlight` bombs in the air
      under a cap of `cap`, and the stream after it: when fewer than five
      droppers remain, the cap is not reached and some alien is free, one
      recruit from three draws joins at the end. */
  function Refreshed(kept: seq<BombDropper>, free: seq<Alien>, inFlight: int, cap: int, now: int, rng: Stream): (r: (seq<BombDropper>, Stream))
  {
    if |kept| < MAX_DROPPERS && inFlight < cap && |free| > 0 then
      (kept + [BombDropper(free[Pick(rng.At(rng.next), |free|)], now as real + rng.At(rng.next + 1) * 2000.0,
                           Cooldown(rng.At(rng.next + 2)))],
       rng.(next := rng.next + 3))
    else (kept, rng)
  }

  /** Refreshed, case by case. */
  lemma RefreshedCases(kept: seq<BombDropper>, free: seq<Alien>, inFlight: int, cap: int, now: int, rng: Stream,
                       ds: seq<BombDropper>, rng': Stream)
    requires if |kept| < MAX_DROPPERS && inFlight < cap && |free| > 0 then
               rng' == rng.(next := rng.next + 3) &&
               ds == kept + [BombDropper(free[Pick(rng.At(rng.next), |free|)], now as real + rng.At(rng.next + 1) * 2000.0,
                                         Cooldown(rng.At(rng.next + 2)))]
             else rng' == rng && ds == kept
    ensures (ds, rng') == Refreshed(kept, free, inFlight, cap, now, rng)
  {
  }

  class BombSystem {
    const bombPool: BombPool
    var bombDroppers: seq<BombDropper>
    var maxSimultaneousBombs: int
    var lastBombCheck: int
    var bombCheckInterval: int

    /** The pool is sound, no dropper's alien is one of its bombs, there are
        at most five droppers with cooldowns in [2000, 5000), and the cap
        leaves the pool always able to supply a bomb below it. */
    ghost predicate Valid()
      reads this, bombPool, bombPool.base
    {
      bombPool.Valid() && this !in bombPool.Repr &&
      |bombDroppers| <= MAX_DROPPERS &&
      (forall d :: d in bombDroppers ==> d.alien.obj !in bombPool.Repr && 2000.0 <= d.bombCooldown < 5000.0) &&
      maxSimultaneousBombs <= 4 && bombCheckInterval >= 1000
    }

    /** The aliens handed in are not bombs of this system's pool. */
    ghost predicate Apart(aliens: seq<Alien>)
      reads this, bombPool
    {
      forall a :: a in aliens ==> a.obj !in bombPool.Repr
    }

    constructor ()
      ensures Valid() && fresh(bombPool.Repr)
      ensures bombPool.base.active == [] && bombDroppers == []
      ensures maxSimultaneousBombs == 4 && lastBombCheck == 0 && bombCheckInterval == 2000
    {
      bombPool := new BombPool();
      bombDroppers := [];
      maxSimultaneousBombs := 4;
      lastBombCheck := 0;
      bombCheckInterval := 2000;
    }

    function GetBombPool(): BombPool {
      bombPool
    }

    /** getRandomBombCooldown: one draw, turned into a cooldown. */
    method RandomBombCooldown(rng: Stream) returns (c: real, rng': Stream)
      ensures rng' == rng.(next := rng.next + 1)
      ensures c == Cooldown(rng.At(rng.next))
    {
      var (r, after) := rng.Take();
      c := Cooldown(r);
      rng' := after;
    }

    /** Arms the first min(5, #active) aliens of `shuffled`, an ordering of
        the active aliens, each with the current time and a fresh cooldown. */
    method InitializeBombDroppers(aliens: seq<Alien>, shuffled: seq<Alien>, now: int, rng: Stream) returns (rng': Stream)
      requires Valid() && Apart(aliens)
      requires multiset(shuffled) == multiset(ActiveAliens(aliens))
      modifies this`bombDroppers
      ensures Valid()
      ensures |bombDroppers| == if |ActiveAliens(aliens)| < MAX_DROPPERS then |ActiveAliens(aliens)| else MAX_DROPPERS
      ensures |bombDroppers| <= |shuffled|
      ensures forall k :: 0 <= k < |bombDroppers| ==>
        bombDroppers[k] == BombDropper(shuffled[k], now as real, Cooldown(rng.At(rng.next + k)))
      ensures rng' == rng.(next := rng.next + |bombDroppers|)
    {
      assert |shuffled| == |multiset(shuffled)| == |ActiveAliens(aliens)|;
      InitialDroppersChosen(aliens, shuffled);
      var dropperCount := if |shuffled| < MAX_DROPPERS then |shuffled| else MAX_DROPPERS;
      rng' := ArmDroppers(shuffled[..dropperCount], now, rng);
    }

    /** Replaces the droppers by one per alien of `picked`, in order, each
        armed at `now` with a cooldown from the next draw. */
    method ArmDroppers(picked: seq<Alien>, now: int, rng: Stream) returns (rng': Stream)
      requires Valid() && |picked| <= MAX_DROPPERS
      requires forall a :: a in picked ==> a.obj !in bombPool.Repr
      modifies this`bombDroppers
      ensures Valid() && |bombDroppers| == |picked| && rng' == rng.(next := rng.next + |picked|)
      ensures forall k :: 0 <= k < |picked| ==>
        bombDroppers[k] == BombDropper(picked[k], now as real, Cooldown(rng.At(rng.next + k)))
    {
      rng' := rng;
      bombDroppers := [];
      var i := 0;
      while i < |picked|
        invariant 0 <= i <= |picked| && |bombDroppers| == i
        invariant Valid() && rng' == rng.(next := rng.next + i)
        invariant forall k :: 0 <= k < i ==>
          bombDroppers[k] == BombDropper(picked[k], now as real, Cooldown(rng.At(rng.next + k)))
      {
        var alien := picked[i];
        var cooldown;
        cooldown, rng' := RandomBombCooldown(rng');
        bombDroppers := bombDroppers + [BombDropper(alien, now as real, cooldown)];
        i := i + 1;
      }
    }

    /** One frame: finished bombs are released, the droppers are refreshed
        when the check interval has passed, and due droppers drop bombs.
        The number in flight never rises above the cap by this call. */
    method Update(aliens: seq<Alien>, now: int, rng: Stream)
      returns (rng': Stream, ghost swept: seq<Bomb>, ghost mid: seq<BombDropper>, ghost rngMid: Stream,
               ghost room: int, ghost sights: seq<Sight>)
      requires Valid() && Apart(aliens)
      modifies this`bombDroppers, this`lastBombCheck, bombPool.Repr
      ensures Valid() && fresh(bombPool.Repr - old(bombPool.Repr)) && rng'.draws == rng.draws
      ensures old(now - lastBombCheck >= bombCheckInterval) ==> lastBombCheck == now
      ensures old(now - lastBombCheck < bombCheckInterval) ==> lastBombCheck == old(lastBombCheck)
      ensures |bombPool.base.active| <= old(|bombPool.base.active|) || |bombPool.base.active| <= maxSimultaneousBombs
      // the three steps: the sweep leaves `swept` in flight, the refresh
      // leaves droppers `mid` and stream `rngMid`, and the pass then drops
      // bombs with `room` left under the cap, aiming by `sights`
      ensures swept == old(Kept(bombPool.base.active, SurvivalMask(bombPool.base.active)))
      ensures old(now - lastBombCheck >= bombCheckInterval) ==>
        (mid, rngMid) == Refreshed(old(LiveDroppers(bombDroppers)), old(Without(ActiveAliens(aliens), IdsOf(LiveDroppers(bombDroppers)))),
                                   |swept|, maxSimultaneousBombs, now, rng)
      ensures old(now - lastBombCheck < bombCheckInterval) ==> mid == old(bombDroppers) && rngMid == rng
      ensures room == old(maxSimultaneousBombs) - |swept| && sights == Sights(mid)
      ensures swept <= bombPool.base.active && Landed(bombPool.base.active, |swept|, Plan(mid, sights, now, room, |mid|), sights)
      ensures bombDroppers == Rearm(mid, sights, now, room, rngMid, |mid|)
      ensures rng' == rngMid.(next := rngMid.next + |Plan(mid, sights, now, room, |mid|)|)
    {
      ghost var cap := maxSimultaneousBombs;
      Sweep(aliens);
      swept := bombPool.base.active;
      rng' := Refresh(aliens, now, rng);
      mid, rngMid := bombDroppers, rng';
      room, sights := Room(), Sights(mid);
      assert room == cap - |swept|;
      rng' := TryDropBombs(now, rng');
    }

    /** The first step of update: the pool advances its bombs and frees the
        spent ones; the droppers and the aliens are untouched. */
    method Sweep(aliens: seq<Alien>)
      requires Valid() && Apart(aliens)
      modifies bombPool.Repr
      ensures Valid() && bombPool.Repr == old(bombPool.Repr)
      ensures bombPool.base.active == old(Kept(bombPool.base.active, SurvivalMask(bombPool.base.active)))
      ensures LiveDroppers(bombDroppers) == old(LiveDroppers(bombDroppers))
      ensures ActiveAliens(aliens) == old(ActiveAliens(aliens))
    {
      bombPool.Update(0.0);
    }

    /** The gated part of update: once the check interval has passed since
        the last refresh, the droppers are refreshed and the time noted. */
    method Refresh(aliens: seq<Alien>, now: int, rng: Stream) returns (rng': Stream)
      requires Valid() && Apart(aliens)
      modifies this`bombDroppers, this`lastBombCheck
      ensures Valid() && rng'.draws == rng.draws
      ensures old(now - lastBombCheck >= bombCheckInterval) ==>
        lastBombCheck == now &&
        var kept := old(LiveDroppers(bombDroppers));
        var free := old(Without(ActiveAliens(aliens), IdsOf(LiveDroppers(bombDroppers))));
        if |kept| < MAX_DROPPERS && old(|bombPool.base.active|) < maxSimultaneousBombs && |free| > 0 then
          rng' == rng.(next := rng.next + 3) &&
          bombDroppers == kept + [BombDropper(free[Pick(rng.At(rng.next), |free|)],
                                              now as real + rng.At(rng.next + 1) * 2000.0,
                                              Cooldown(rng.At(rng.next + 2)))]
        else
          rng' == rng && bombDroppers == kept
      ensures old(now - lastBombCheck >= bombCheckInterval) ==>
        (bombDroppers, rng') == Refreshed(old(LiveDroppers(bombDroppers)), old(Without(ActiveAliens(aliens), IdsOf(LiveDroppers(bombDroppers)))),
                                          old(|bombPool.base.active|), maxSimultaneousBombs, now, rng)
      ensures old(now - lastBombCheck < bombCheckInterval) ==> lastBombCheck == old(lastBombCheck) && bombDroppers == old(bombDroppers) && rng' == rng
    {
      rng' := rng;
      if now - lastBombCheck >= bombCheckInterval {
        ghost var kept := LiveDroppers(bombDroppers);
        ghost var free := Without(ActiveAliens(aliens), IdsOf(kept));
        ghost var inFlight := |bombPool.base.active|;
        rng' := UpdateBombDroppers(aliens, now, rng');
        RefreshedCases(kept, free, inFlight, maxSimultaneousBombs, now, rng, bombDroppers, rng');
        NoteCheck(now);
      }
    }

    /** Records `now` as the time of the last refresh. */
    method NoteCheck(now: int)
      requires Valid()
      modifies this`lastBombCheck
      ensures Valid() && lastBombCheck == now
    {
      lastBombCheck := now;
    }

    /** The periodic refresh: droppers whose alien is gone are dropped, and
        while fewer than five remain and the cap is not reached, one active
        alien that is not yet a dropper is recruited, chosen by a draw, with a
        first bomb delayed by up to two seconds and a fresh cooldown. */
    method UpdateBombDroppers(aliens: seq<Alien>, now: int, rng: Stream) returns (rng': Stream)
      requires Valid() && Apart(aliens)
      modifies this`bombDroppers
      ensures Valid()
      ensures
        var kept := old(LiveDroppers(bombDroppers));
        var free := old(Without(ActiveAliens(aliens), IdsOf(LiveDroppers(bombDroppers))));
        if |kept| < MAX_DROPPERS && old(|bombPool.base.active|) < maxSimultaneousBombs && |free| > 0 then
          rng' == rng.(next := rng.next + 3) &&
          bombDroppers == kept + [BombDropper(free[Pick(rng.At(rng.next), |free|)],
                                              now as real + rng.At(rng.next + 1) * 2000.0,
                                              Cooldown(rng.At(rng.next + 2)))]
        else
          rng' == rng && bombDroppers == kept
      ensures NoDup(IdsOf(old(bombDroppers))) ==> NoDup(IdsOf(bombDroppers))
    {
      var activeAliens := ActiveAliens(aliens);
      var currentBombCount := bombPool.GetActiveBombCount();
      Prune();
      rng' := TopUp(activeAliens, currentBombCount, now, rng);
    }

    /** The second half of a refresh: with fewer than five droppers and the
        cap not reached, one of `activeAliens` that is not yet a dropper is
        recruited; otherwise nothing changes. */
    method TopUp(activeAliens: seq<Alien>, currentBombCount: int, now: int, rng: Stream) returns (rng': Stream)
      requires Valid() && forall a :: a in activeAliens ==> a.obj !in bombPool.Repr
      modifies this`bombDroppers
      ensures Valid()
      ensures
        var free := Without(activeAliens, IdsOf(old(bombDroppers)));
        if old(|bombDroppers|) < MAX_DROPPERS && currentBombCount < maxSimultaneousBombs && |free| > 0 then
          rng' == rng.(next := rng.next + 3) &&
          bombDroppers == old(bombDroppers) + [BombDropper(free[Pick(rng.At(rng.next), |free|)],
                                                           now as real + rng.At(rng.next + 1) * 2000.0,
                                                           Cooldown(rng.At(rng.next + 2)))]
        else
          rng' == rng && bombDroppers == old(bombDroppers)
      ensures NoDup(IdsOf(old(bombDroppers))) ==> NoDup(IdsOf(bombDroppers))
    {
      rng' := rng;
      if |bombDroppers| < MAX_DROPPERS && currentBombCount < maxSimultaneousBombs {
        var availableAliens := Without(activeAliens, IdsOf(bombDroppers));
        if |availableAliens| > 0 {
          var recruit;
          recruit, rng' := Recruit(availableAliens, now, rng);
          Enlist(recruit);
        }
      }
    }

    /** Drops the droppers whose alien is no longer active, keeping the order. */
    method Prune()
      requires Valid()
      modifies this`bombDroppers
      ensures Valid() && bombDroppers == old(LiveDroppers(bombDroppers))
      ensures NoDup(IdsOf(old(bombDroppers))) ==> NoDup(IdsOf(bombDroppers))
    {
      LiveDroppersIds(bombDroppers);
      bombDroppers := LiveDroppers(bombDroppers);
    }

    /** Appends `recruit`, an alien that is not a bomb and not yet a dropper. */
    method Enlist(recruit: BombDropper)
      requires Valid() && |bombDroppers| < MAX_DROPPERS
      requires recruit.alien.obj !in bombPool.Repr && recruit.alien.obj !in IdsOf(bombDroppers)
      requires 2000.0 <= recruit.bombCooldown < 5000.0
      modifies this`bombDroppers
      ensures Valid() && bombDroppers == old(bombDroppers) + [recruit]
      ensures NoDup(IdsOf(old(bombDroppers))) ==> NoDup(IdsOf(bombDroppers))
    {
      IdsOfAppend(bombDroppers, [recruit]);
      if NoDup(IdsOf(bombDroppers)) {
        NoDupJoin(IdsOf(bombDroppers), IdsOf([recruit]));
      }
      bombDroppers := bombDroppers + [recruit];
    }

    /** The recruit of a refresh, from three draws in order: which available
        alien, how long its first bomb is held back, and its cooldown. */
    method Recruit(available: seq<Alien>, now: int, rng: Stream) returns (d: BombDropper, rng': Stream)
      requires |available| > 0
      ensures rng' == rng.(next := rng.next + 3)
      ensures d == BombDropper(available[Pick(rng.At(rng.next), |available|)],
                               now as real + rng.At(rng.next + 1) * 2000.0,
                               Cooldown(rng.At(rng.next + 2)))
    {
      var (r, afterPick) := rng.Take();
      var randomAlien := available[Pick(r, |available|)];
      var (delay, afterDelay) := afterPick.Take();
      var cooldown;
      cooldown, rng' := RandomBombCooldown(afterDelay);
      d := BombDropper(randomAlien, now as real + delay * 2000.0, cooldown);
    }

    /** How many more bombs the cap lets into flight. */
    function Room(): int
      reads this, bombPool, bombPool.base
    {
      maxSimultaneousBombs - |bombPool.base.active|
    }

    /** The droppers that fire in a pass at time `now` from the current state. */
    ghost function PassPlan(now: int): seq<int>
      reads this, bombPool, bombPool.base, set d | d in bombDroppers :: d.alien.obj
    {
      Plan(bombDroppers, Sights(bombDroppers), now, Room(), |bombDroppers|)
    }

    /** Each due dropper, in order, drops a bomb from its alien and is
        re-armed, until the number in flight reaches the cap; with the cap
        already reached nothing happens.  Which droppers fire is Plan, what
        becomes of the droppers is Rearm. */
    method TryDropBombs(now: int, rng: Stream) returns (rng': Stream)
      requires Valid()
      modifies this`bombDroppers, bombPool.Repr
      ensures Valid() && fresh(bombPool.Repr - old(bombPool.Repr))
      ensures bombDroppers == Rearm(old(bombDroppers), old(Sights(bombDroppers)), now, old(Room()), rng, old(|bombDroppers|))
      ensures old(bombPool.base.active) <= bombPool.base.active
      ensures Landed(bombPool.base.active, old(|bombPool.base.active|), old(PassPlan(now)), old(Sights(bombDroppers)))
      ensures rng' == rng.(next := rng.next + |old(PassPlan(now))|)
      ensures old(Room()) <= 0 ==> |bombPool.base.active| == old(|bombPool.base.active|)
      ensures old(Room()) > 0 ==> |bombPool.base.active| <= maxSimultaneousBombs
      ensures Sights(old(bombDroppers)) == old(Sights(bombDroppers))
    {
      ghost var ds := bombDroppers;
      ghost var sight := Sights(ds);
      var currentBombCount := bombPool.GetActiveBombCount();
      ghost var room := maxSimultaneousBombs - currentBombCount;
      assert ds == old(bombDroppers) && sight == old(Sights(bombDroppers)) && room == old(Room());
      assert old(PassPlan(now)) == Plan(ds, sight, now, room, |ds|);
      if currentBombCount >= maxSimultaneousBombs {
        rng' := rng;
        NothingFits(ds, sight, now, room, rng, |ds|);
        return;
      }
      ghost var act0 := bombPool.base.active;
      PassStart(ds, sight, now, room, rng, currentBombCount, act0);
      rng' := DropPass(now, rng, ds, sight, currentBombCount, room, act0);
    }

    /** The state of tryDropBombs' loop once the first `i` droppers have
        been visited: the droppers are Rearm's, the bombs in flight are the
        `c0` of the start followed by one per planned dropper, and one draw
        has been spent per bomb dropped. */
    ghost predicate Dropping(ds: seq<BombDropper>, sight: seq<Sight>, now: int, room: int, rng0: Stream, rng: Stream,
                             c0: int, act0: seq<Bomb>, i: nat)
      reads this, bombPool, bombPool.base, set b | b in bombPool.base.active :: b.obj, set d | d in ds :: d.alien.obj
    {
      Valid() && i <= |ds| == |bombDroppers| == |sight| && room == maxSimultaneousBombs - c0 &&
      (forall k :: 0 <= k < |ds| ==> sight[k] == SightOf(ds[k].alien) && ds[k].alien.obj !in bombPool.Repr) &&
      bombDroppers == Rearm(ds, sight, now, room, rng0, i) &&
      act0 <= bombPool.base.active &&
      Landed(bombPool.base.active, c0, Plan(ds, sight, now, room, i), sight) &&
      rng == rng0.(next := rng0.next + |Plan(ds, sight, now, room, i)|)
    }

    /** The loop of tryDropBombs, with room for at least one more bomb. */
    method DropPass(now: int, rng: Stream, ghost ds: seq<BombDropper>, ghost sight: seq<Sight>, c0: int,
                    ghost room: int, ghost act0: seq<Bomb>)
      returns (rng': Stream)
      requires Dropping(ds, sight, now, room, rng, rng, c0, act0, 0) && room > 0
      modifies this`bombDroppers, bombPool.Repr
      ensures Valid() && fresh(bombPool.Repr - old(bombPool.Repr))
      ensures bombDroppers == Rearm(ds, sight, now, room, rng, |ds|)
      ensures act0 <= bombPool.base.active
      ensures Landed(bombPool.base.active, c0, Plan(ds, sight, now, room, |ds|), sight)
      ensures rng' == rng.(next := rng.next + |Plan(ds, sight, now, room, |ds|)|)
    {
      rng' := rng;
      var i := 0;
      var full := false;
      while i < |bombDroppers| && !full
        invariant 0 <= i <= |ds| && fresh(bombPool.Repr - old(bombPool.Repr))
        invariant Dropping(ds, sight, now, room, rng, rng', c0, act0, i)
        invariant full <==> |Plan(ds, sight, now, room, i)| >= room
        decreases |ds| - i
      {
        full, rng' := DropStep(i, now, rng, rng', ds, sight, c0, act0, room);
        i := i + 1;
      }
      PassDone(ds, sight, now, room, rng, rng', c0, act0, i);
    }

    /** Before the first dropper, nothing has been dropped or re-armed. */
    lemma {:induction false} PassStart(ds: seq<BombDropper>, sight: seq<Sight>, now: int, room: int,
                                       rng0: Stream, c0: int, act0: seq<Bomb>)
      requires Valid() && ds == bombDroppers && |sight| == |ds|
      requires forall k :: 0 <= k < |ds| ==> sight[k] == SightOf(ds[k].alien)
      requires c0 == |bombPool.base.active| && room == maxSimultaneousBombs - c0 && act0 == bombPool.base.active
      ensures Dropping(ds, sight, now, room, rng0, rng0, c0, act0, 0)
    {
      assert forall k :: 0 <= k < |ds| ==> ds[k] in bombDroppers;
    }

    /** A pass that reached the end of the droppers or filled the cap has
        done everything the whole pass would. */
    lemma {:induction false} PassDone(ds: seq<BombDropper>, sight: seq<Sight>, now: int, room: int,
                                      rng0: Stream, rng: Stream, c0: int, act0: seq<Bomb>, i: nat)
      requires Dropping(ds, sight, now, room, rng0, rng, c0, act0, i)
      requires i == |ds| || |Plan(ds, sight, now, room, i)| >= room
      ensures Valid() && act0 <= bombPool.base.active
      ensures bombDroppers == Rearm(ds, sight, now, room, rng0, |ds|)
      ensures Landed(bombPool.base.active, c0, Plan(ds, sight, now, room, |ds|), sight)
      ensures rng == rng0.(next := rng0.next + |Plan(ds, sight, now, room, |ds|)|)
    {
      if i < |ds| {
        PlanSaturated(ds, sight, now, room, i, |ds|);
        RearmSaturated(ds, sight, now, room, rng0, i, |ds|);
      }
    }

    /** One pass of tryDropBombs' loop, for dropper `i`: a due dropper drops
        and is re-armed; `full` says the cap has been reached. */
    method DropStep(i: nat, now: int, ghost rng0: Stream, rng: Stream, ghost ds: seq<BombDropper>, ghost sight: seq<Sight>,
                    c0: int, ghost act0: seq<Bomb>, ghost room: int)
      returns (full: bool, rng': Stream)
      requires i < |ds| && Dropping(ds, sight, now, room, rng0, rng, c0, act0, i)
      requires |Plan(ds, sight, now, room, i)| < room
      modifies this`bombDroppers, bombPool.Repr
      ensures fresh(bombPool.Repr - old(bombPool.Repr))
      ensures Dropping(ds, sight, now, room, rng0, rng', c0, act0, i + 1)
      ensures full <==> |Plan(ds, sight, now, room, i + 1)| >= room
    {
      full := false;
      rng' := rng;
      ghost var plan := Plan(ds, sight, now, room, i);
      var dropper := bombDroppers[i];
      assert dropper == ds[i] by {
        NothingYet(ds, sight, now, room, rng0, i, i);
      }
      if !dropper.alien.obj.active || !(now as real - dropper.lastBombTime >= dropper.bombCooldown) {
        return;
      }
      full, rng' := Fire(i, dropper, now, rng0, rng, ds, sight, c0, act0, room);
    }

    /** A due dropper's turn: its bomb is created and it is re-armed. */
    method Fire(i: nat, dropper: BombDropper, now: int, ghost rng0: Stream, rng: Stream, ghost ds: seq<BombDropper>,
                ghost sight: seq<Sight>, c0: int, ghost act0: seq<Bomb>, ghost room: int)
      returns (full: bool, rng': Stream)
      requires i < |ds| && Dropping(ds, sight, now, room, rng0, rng, c0, act0, i)
      requires |Plan(ds, sight, now, room, i)| < room && dropper == ds[i] && Due(dropper, sight, i, now)
      modifies this`bombDroppers, bombPool.Repr
      ensures fresh(bombPool.Repr - old(bombPool.Repr))
      ensures Dropping(ds, sight, now, room, rng0, rng', c0, act0, i + 1)
      ensures full <==> |Plan(ds, sight, now, room, i + 1)| >= room
    {
      ghost var plan := Plan(ds, sight, now, room, i);
      ghost var act := bombPool.base.active;
      var bomb := DropBomb(dropper.alien);
      if bomb.Some? {
        var cooldown;
        cooldown, rng' := RandomBombCooldown(rng);
        bombDroppers := bombDroppers[i := Rearmed(dropper, now, cooldown)];
        LandedSnoc(act, c0, plan, sight, bomb.value, i);
        full := bombPool.GetActiveBombCount() >= maxSimultaneousBombs;
      } else {
        assert false;
      }
    }

    /** dropBomb: a bomb from the pool at the centre of the alien's bottom edge. */
    method DropBomb(alien: Alien) returns (bomb: Option<Bomb>)
      requires Valid() && alien.obj !in bombPool.Repr
      modifies bombPool.Repr
      ensures Valid() && fresh(bombPool.Repr - old(bombPool.Repr))
      ensures bomb.Some? <==> (|old(bombPool.base.pool)| > 0 || |old(bombPool.base.active)| < MAX_BOMBS)
      ensures bomb.Some? ==> bombPool.base.active == old(bombPool.base.active) + [bomb.value] && DroppedAt(bomb.value, SightOf(alien))
      ensures bomb.None? ==> bombPool.base.active == old(bombPool.base.active)
      ensures forall b :: b in old(bombPool.base.pool + bombPool.base.active) && bomb != Some(b) ==> unchanged(b.obj)
      ensures forall b :: b in old(bombPool.base.active) ==> unchanged(b.obj)
    {
      var bombX := alien.obj.x + alien.obj.width / 2.0 - 2.0;
      var bombY := alien.obj.y + alien.obj.height;
      bomb := bombPool.CreateBomb(bombX, bombY);
    }

    function GetActiveBombs(): seq<Bomb>
      reads this, bombPool, bombPool.base
    {
      bombPool.GetActiveBombs()
    }

    /** No bombs in flight, no droppers, and the refresh clock restarted. */
    method Reset()
      requires Valid()
      modifies this`bombDroppers, this`lastBombCheck, bombPool.Repr
      ensures Valid() && bombPool.Repr == old(bombPool.Repr)
      ensures bombPool.base.active == [] && bombDroppers == [] && lastBombCheck == 0
      ensures bombPool.base.pool == old(bombPool.base.pool) + Reverse(old(bombPool.base.active))
    {
      bombPool.Reset();
      bombDroppers := [];
      lastBombCheck := 0;
    }

    /** Frees every bomb in flight; the droppers are kept. */
    method ClearBombs()
      requires Valid()
      modifies bombPool.Repr
      ensures Valid() && bombPool.Repr == old(bombPool.Repr)
      ensures bombPool.base.active == []
      ensures bombPool.base.pool == old(bombPool.base.pool) + Reverse(old(bombPool.base.active))
    {
      bombPool.Reset();
    }

    /** Sets the cap and the refresh interval for `level` and gives every
        dropper a fresh cooldown, one draw each in order. */
    method SetDifficulty(level: int, rng: Stream) returns (rng': Stream)
      requires Valid()
      modifies this`maxSimultaneousBombs, this`bombCheckInterval, this`bombDroppers
      ensures Valid()
      ensures maxSimultaneousBombs == MaxBombsFor(level) && bombCheckInterval == CheckIntervalFor(level)
      ensures |bombDroppers| == old(|bombDroppers|) && rng' == rng.(next := rng.next + |bombDroppers|)
      ensures forall k :: 0 <= k < |bombDroppers| ==>
        bombDroppers[k] == old(bombDroppers[k]).(bombCooldown := Cooldown(rng.At(rng.next + k)))
    {
      var raised := 3 + level / 5;
      maxSimultaneousBombs := if raised < 4 then raised else 4;
      var shortened := 2000 - level * 100;
      bombCheckInterval := if shortened > 1000 then shortened else 1000;
      rng' := rng;
      var i := 0;
      while i < |bombDroppers|
        invariant 0 <= i <= |bombDroppers| == old(|bombDroppers|)
        invariant Valid() && rng' == rng.(next := rng.next + i)
        invariant maxSimultaneousBombs == MaxBombsFor(level) && bombCheckInterval == CheckIntervalFor(level)
        invariant forall k :: 0 <= k < i ==>
          bombDroppers[k] == old(bombDroppers[k]).(bombCooldown := Cooldown(rng.At(rng.next + k)))
        invariant forall k :: i <= k < |bombDroppers| ==> bombDroppers[k] == old(bombDroppers[k])
      {
        var cooldown;
        cooldown, rng' := RandomBombCooldown(rng');
        assert bombDroppers[i] in bombDroppers;
        bombDroppers := bombDroppers[i := bombDroppers[i].(bombCooldown := cooldown)];
        i := i + 1;
      }
    }
  }

  /** The droppers armed from a shuffle of the aliens are active aliens of
      the input, and distinct when the input's aliens are. */
  lemma {:induction false} InitialDroppersChosen(aliens: seq<Alien>, shuffled: seq<Alien>)
    requires multiset(shuffled) == multiset(ActiveAliens(aliens))
    ensures forall a :: a in shuffled ==> a in aliens && a.obj.active
    ensures NoDup(aliens) ==> NoDup(shuffled)
  {
    ActiveAliensMembers(aliens);
    forall a | a in shuffled ensures a in aliens && a.obj.active {
      assert a in multiset(ActiveAliens(aliens));
    }
    if NoDup(aliens) {
      ActiveAliensNoDup(aliens);
      NoDupMultiset(ActiveAliens(aliens));
      NoDupMultiset(shuffled);
    }
  }
}
