// What one frame's collision pass does to the game.  Bullets are checked
// against aliens, then buildings, then the UFO; bombs against the cannon,
// then buildings.  Each phase walks the projectiles that were in use when
// the pass began, and a projectile spent by an earlier phase is skipped.
// The buildings' side of a phase is specified by a fold over plain values
// (Wall, Shot), which the loops over the live objects are proved to follow.
module CollisionEffects {
  import opened GameTypes
  import opened GameConstants
  import opened GameObjects
  import opened SeqUtil
  import opened RandomSource
  import opened Collisions
  import opened Scoring
  import opened Players
  import opened PlayerLives
  import opened Buildings
  import BuildingManagers
  import opened Ufos
  import opened UfoSystems
  import Explosions

  /** The damage a bullet does to the building it strikes. */
  const BULLET_DAMAGE: int := 25
  /** The damage a bomb does to the building it strikes. */
  const BOMB_DAMAGE: int := 20

  /** The objects of a list, as a frame. */
  function Objects(s: seq<GameObject>): set<GameObject> {
    set o | o in s
  }

  /** Both entities of every contact. */
  function Involved(records: seq<Contact>): set<GameObject> {
    (set c | c in records :: c.entity1) + (set c | c in records :: c.entity2)
  }

  /** The first entity (the projectile) of every contact. */
  function Projectiles(records: seq<Contact>): set<GameObject> {
    set c | c in records :: c.entity1
  }

  // ---------------------------------------------------------------------
  // Scoring a run of alien hits

  function Cap6(k: int): int {
    if k < 6 then k else 6
  }

  /** The multiplier, in halves, after `n` hits scored at one moment, the
      first of them `gap` milliseconds after the previous hit: a slow first
      hit restarts the run at 1x, and every later one is a quick hit. */
  function ComboAfter(halves: int, gap: int, n: nat): (h: int)
    requires 2 <= halves <= 6
    ensures 2 <= h <= 6
    ensures n > 0 && gap >= 1000 ==> h == Cap6(n + 1)
    ensures gap < 1000 ==> h == Cap6(halves + n)
  {
    if n == 0 then halves else NextHalves(ComboAfter(halves, gap, n - 1), if n == 1 then gap else 0)
  }

  /** The points `n` such hits add, each worth `points` times its multiplier:
      from once to three times the base points per hit. */
  function RunPoints(points: int, halves: int, gap: int, n: nat): (total: int)
    requires 2 <= halves <= 6
    ensures points >= 0 ==> points * n <= total <= 3 * points * n
  {
    if n == 0 then 0
    else
      var h := ComboAfter(halves, gap, n);
      var prev := RunPoints(points, halves, gap, n - 1);
      if points >= 0 then
        AwardBounds(points, h);
        assert points * n == points * (n - 1) + points;
        prev + Award(points, h)
      else
        prev + Award(points, h)
  }

  /** How many contacts name `a` as their second entity. */
  function Scored(records: seq<Contact>, a: GameObject): nat {
    if records == [] then 0
    else Scored(records[..|records| - 1], a) + (if records[|records| - 1].entity2 == a then 1 else 0)
  }

  /** Two contacts naming the same alien count it twice. */
  lemma {:induction false} ScoredTwice(records: seq<Contact>, i: int, j: int)
    requires 0 <= i < j < |records| && records[i].entity2 == records[j].entity2
    ensures Scored(records, records[i].entity2) >= 2
  {
    var init := records[..|records| - 1];
    if j == |records| - 1 {
      ScoredOnce(init, i);
    } else {
      ScoredTwice(init, i, j);
    }
  }

  lemma {:induction false} ScoredOnce(records: seq<Contact>, i: int)
    requires 0 <= i < |records|
    ensures Scored(records, records[i].entity2) >= 1
  {
    if i < |records| - 1 {
      ScoredOnce(records[..|records| - 1], i);
    }
  }

  /** An alien that two different bullets strike in the same frame is
      reported, and so destroyed and scored, twice. */
  lemma {:induction false} DoubleHitScoresTwice(bullets: seq<GameObject>, aliens: seq<GameObject>,
                                                a: GameObject, b1: GameObject, b2: GameObject)
    requires forall o :: o in bullets + aliens ==> Sized(o.Bounds())
    requires b1 != b2 && b1 in bullets && b2 in bullets && b1.active && b2.active
    requires a in aliens && a.active && Collisions.Hit(b1, a) && Collisions.Hit(b2, a)
    ensures Scored(BulletAlienContacts(bullets, aliens), a) >= 2
  {
    var records := BulletAlienContacts(bullets, aliens);
    BulletAlienContactsExact(bullets, aliens);
    assert Contact(b1, a) in records && Contact(b2, a) in records;
    var i :| 0 <= i < |records| && records[i] == Contact(b1, a);
    var j :| 0 <= j < |records| && records[j] == Contact(b2, a);
    if i < j {
      ScoredTwice(records, i, j);
    } else {
      ScoredTwice(records, j, i);
    }
  }

  // ---------------------------------------------------------------------
  // Projectiles against the row of buildings, on values

  /** A building as the collision pass sees it. */
  datatype Wall = Wall(box: Rect, health: int, standing: bool)

  /** A projectile as the collision pass sees it. */
  datatype Shot = Shot(box: Rect, live: bool)

  /** The projectile box strictly overlaps the standing wall. */
  predicate Struck(w: Wall, r: Rect) {
    w.standing && Overlapping(r, w.box)
  }

  function StruckMask(walls: seq<Wall>, r: Rect): (m: seq<bool>)
    ensures |m| == |walls| && forall k :: 0 <= k < |walls| ==> m[k] == Struck(walls[k], r)
  {
    seq(|walls|, k requires 0 <= k < |walls| => Struck(walls[k], r))
  }

  /** A wall after taking `damage`: its health drops, but not below zero,
      and it falls when its health reaches zero. */
  function Damaged(w: Wall, damage: int): (v: Wall)
    ensures v.box == w.box && v.health >= 0
    ensures v.standing <==> w.standing && v.health > 0
    ensures damage >= 0 && w.health >= 0 ==> v.health <= w.health
    ensures damage >= 0 ==> v.health >= w.health - damage
  {
    var h := if w.health - damage < 0 then 0 else w.health - damage;
    Wall(w.box, h, w.standing && h > 0)
  }

  /** One projectile's turn: a live one strikes the first standing wall it
      overlaps, which takes the damage, and is spent; otherwise nothing
      happens. */
  function Fire(walls: seq<Wall>, s: Shot, damage: int): (r: (seq<Wall>, bool))
    ensures |r.0| == |walls|
    ensures r.1 <==> s.live && exists k :: 0 <= k < |walls| && Struck(walls[k], s.box)
    ensures !r.1 ==> r.0 == walls
    ensures forall j :: 0 <= j < |walls| ==> r.0[j] == walls[j] || (Struck(walls[j], s.box) && r.0[j] == Damaged(walls[j], damage))
  {
    if !s.live then (walls, false)
    else
      var m := StruckMask(walls, s.box);
      var k := First(m);
      if k < 0 then
        assert forall j :: 0 <= j < |walls| ==> !m[j] && !Struck(walls[j], s.box);
        (walls, false)
      else
        (walls[k := Damaged(walls[k], damage)], true)
  }

  /** The turns of the first `n` projectiles, in order: the walls after them,
      and which of those projectiles are still live. */
  function Volley(walls: seq<Wall>, shots: seq<Shot>, damage: int, n: nat): (r: (seq<Wall>, seq<bool>))
    requires n <= |shots|
    ensures |r.0| == |walls| && |r.1| == n
    ensures forall j :: 0 <= j < |walls| ==> r.0[j].box == walls[j].box && (r.0[j].standing ==> walls[j].standing)
    ensures damage >= 0 ==> forall j :: 0 <= j < |walls| && walls[j].health >= 0 ==> 0 <= r.0[j].health <= walls[j].health
    ensures forall k :: 0 <= k < n && r.1[k] ==> shots[k].live
  {
    if n == 0 then (walls, [])
    else
      var v := Volley(walls, shots, damage, n - 1);
      var f := Fire(v.0, shots[n - 1], damage);
      (f.0, v.1 + [shots[n - 1].live && !f.1])
  }

  /** A projectile is spent only by striking a wall that was standing
      before the volley began. */
  lemma {:induction false} SpentOnStandingWall(walls: seq<Wall>, shots: seq<Shot>, damage: int, n: nat, k: int)
    requires n <= |shots| && 0 <= k < n && shots[k].live && !Volley(walls, shots, damage, n).1[k]
    ensures exists j :: 0 <= j < |walls| && walls[j].standing && Overlapping(shots[k].box, walls[j].box)
  {
    var v := Volley(walls, shots, damage, n - 1);
    if k < n - 1 {
      SpentOnStandingWall(walls, shots, damage, n - 1, k);
    } else {
      var j :| 0 <= j < |v.0| && Struck(v.0[j], shots[k].box);
      assert walls[j].standing && Overlapping(shots[k].box, walls[j].box);
    }
  }

  /** A wall that no live projectile of the volley overlaps ends as it began. */
  lemma {:induction false} UnstruckWallKept(walls: seq<Wall>, shots: seq<Shot>, damage: int, n: nat, j: int)
    requires n <= |shots| && 0 <= j < |walls|
    requires forall k :: 0 <= k < n && shots[k].live ==> !Overlapping(shots[k].box, walls[j].box)
    ensures Volley(walls, shots, damage, n).0[j] == walls[j]
  {
    if n > 0 {
      UnstruckWallKept(walls, shots, damage, n - 1, j);
    }
  }

  /** How many of the first `n` projectiles the volley spent. */
  function Spent(shots: seq<Shot>, live: seq<bool>, n: nat): (c: nat)
    requires n <= |live| <= |shots|
    ensures c <= n
  {
    if n == 0 then 0 else Spent(shots, live, n - 1) + (if shots[n - 1].live && !live[n - 1] then 1 else 0)
  }

  /** The total health of a row. */
  function TotalHealth(walls: seq<Wall>): int {
    if walls == [] then 0 else TotalHealth(walls[..|walls| - 1]) + walls[|walls| - 1].health
  }

  lemma {:induction false} TotalHealthUpdate(walls: seq<Wall>, k: int, w: Wall)
    requires 0 <= k < |walls|
    ensures TotalHealth(walls[k := w]) == TotalHealth(walls) - walls[k].health + w.health
  {
    var n := |walls| - 1;
    if k < n {
      TotalHealthUpdate(walls[..n], k, w);
      assert walls[k := w][..n] == walls[..n][k := w];
    } else {
      assert walls[k := w][..n] == walls[..n];
    }
  }

  /** Each spent projectile costs the row at most `damage` health, so a
      volley takes at most `damage` times the number of spent projectiles. */
  lemma {:induction false} VolleyHealthLoss(walls: seq<Wall>, shots: seq<Shot>, damage: int, n: nat)
    requires n <= |shots| && damage >= 0
    ensures var v := Volley(walls, shots, damage, n);
      TotalHealth(walls) - TotalHealth(v.0) <= damage * Spent(shots, v.1, n)
  {
    if n > 0 {
      var v := Volley(walls, shots, damage, n - 1);
      var r := Volley(walls, shots, damage, n);
      VolleyHealthLoss(walls, shots, damage, n - 1);
      assert r.1[..n - 1] == v.1;
      SpentPrefix(shots, v.1, r.1, n - 1);
      var spent := if shots[n - 1].live && !r.1[n - 1] then 1 else 0;
      assert Spent(shots, r.1, n) == Spent(shots, v.1, n - 1) + spent;
      FireHealthLoss(v.0, shots[n - 1], damage);
      if spent == 1 {
        MulSucc(damage, Spent(shots, v.1, n - 1));
      }
    }
  }

  lemma {:induction false} MulSucc(d: int, a: int)
    ensures d * (a + 1) == d * a + d
  {
  }

  /** One turn costs the row at most `damage` health, and nothing when the
      projectile is not spent. */
  lemma {:induction false} FireHealthLoss(walls: seq<Wall>, s: Shot, damage: int)
    requires damage >= 0
    ensures TotalHealth(walls) - TotalHealth(Fire(walls, s, damage).0) <= if Fire(walls, s, damage).1 then damage else 0
  {
    if s.live {
      var k := First(StruckMask(walls, s.box));
      if k >= 0 {
        TotalHealthUpdate(walls, k, Damaged(walls[k], damage));
      }
    }
  }

  lemma {:induction false} SpentPrefix(shots: seq<Shot>, a: seq<bool>, b: seq<bool>, n: nat)
    requires n <= |a| <= |shots| && n <= |b| <= |shots| && a[..n] == b[..n]
    ensures Spent(shots, a, n) == Spent(shots, b, n)
  {
    if n > 0 {
      assert a[n - 1] == a[..n][n - 1];
      assert b[n - 1] == b[..n][n - 1];
      assert a[..n - 1] == a[..n][..n - 1];
      assert b[..n - 1] == b[..n][..n - 1];
      SpentPrefix(shots, a, b, n - 1);
    }
  }

  // ---------------------------------------------------------------------
  // The same, on the live objects

  function WallOf(b: Building): Wall
    reads b, b.obj
  {
    Wall(b.obj.Bounds(), b.currentHealth, b.obj.active)
  }

  function ShotOf(o: GameObject): Shot
    reads o
  {
    Shot(o.Bounds(), o.active)
  }

  /** The row as walls. */
  ghost function Walls(bs: seq<Building>): (r: seq<Wall>)
    reads set k | 0 <= k < |bs| :: bs[k], set k | 0 <= k < |bs| :: bs[k].obj
    ensures |r| == |bs| && forall k :: 0 <= k < |bs| ==> r[k] == WallOf(bs[k])
  {
    if bs == [] then [] else Walls(bs[..|bs| - 1]) + [WallOf(bs[|bs| - 1])]
  }

  /** The projectiles as shots. */
  ghost function Shots(os: seq<GameObject>): (r: seq<Shot>)
    reads set o | o in os
    ensures |r| == |os| && forall k :: 0 <= k < |os| ==> r[k] == ShotOf(os[k])
  {
    if os == [] then [] else Shots(os[..|os| - 1]) + [ShotOf(os[|os| - 1])]
  }

  /** One projectile's turn against the row: a live one that strictly
      overlaps a standing building damages the first such building in row
      order and is spent. */
  method StrikeOne(row: BuildingManagers.BuildingManager, shot: GameObject, damage: int) returns (hit: bool)
    requires row.Valid() && shot !in row.Repr
    modifies shot`active, row.Repr - {row}
    ensures row.Valid() && row.buildings == old(row.buildings) && row.Repr == old(row.Repr)
    ensures (Walls(row.buildings), hit) == Fire(old(Walls(row.buildings)), old(ShotOf(shot)), damage)
    ensures shot.active == (old(shot.active) && !hit)
  {
    ghost var w0 := Walls(row.buildings);
    hit := false;
    if !shot.active {
      return;
    }
    var found := row.CheckCollisionWithProjectile(shot.x, shot.y, shot.width, shot.height);
    ghost var mask := StruckMask(w0, shot.Bounds());
    if found.None? {
      assert forall k :: 0 <= k < |mask| ==> !mask[k];
      return;
    }
    ghost var i :| BuildingManagers.FirstHit(row.buildings, i, shot.Bounds()) && row.buildings[i] == found.value;
    assert mask[i] && forall j :: 0 <= j < i ==> !mask[j];
    assert First(mask) == i;
    assert Fire(w0, ShotOf(shot), damage) == (w0[i := Damaged(w0[i], damage)], true);
    Spend(row, shot, found.value, i, damage);
    hit := true;
  }

  /** The struck building `i` takes `damage` and the projectile is spent;
      every other building is as it was. */
  method Spend(row: BuildingManagers.BuildingManager, shot: GameObject, building: Building, ghost i: int, damage: int)
    requires row.Valid() && shot !in row.Repr && 0 <= i < |row.buildings| && row.buildings[i] == building
    modifies shot`active, row.Repr - {row}
    ensures row.Valid() && row.buildings == old(row.buildings) && row.Repr == old(row.Repr) && !shot.active
    ensures Walls(row.buildings) == old(Walls(row.buildings))[i := Damaged(old(WallOf(building)), damage)]
  {
    ghost var w0 := Walls(row.buildings);
    assert forall k :: 0 <= k < |row.buildings| ==> row.buildings[k].obj in row.Repr && row.buildings[k] in row.Repr;
    shot.active := false;
    assert Walls(row.buildings) == w0;
    DamageAt(row, building, i, damage);
  }

  /** Building `i` of the row takes `damage`; every other building is as it was. */
  method DamageAt(row: BuildingManagers.BuildingManager, building: Building, ghost i: int, damage: int)
    requires row.Valid() && 0 <= i < |row.buildings| && row.buildings[i] == building
    modifies row.Repr - {row}
    ensures row.Valid() && row.buildings == old(row.buildings) && row.Repr == old(row.Repr)
    ensures Walls(row.buildings) == old(Walls(row.buildings))[i := Damaged(old(WallOf(row.buildings[i])), damage)]
    ensures forall o: object :: o in old(row.Repr) && o !in {row, row.buildings[i], row.buildings[i].obj, row.buildings[i].damageSections} ==> unchanged(o)
  {
    building.TakeDamage(damage);
  }

  /** After the turns of the first `i` projectiles: the row is as the volley
      says, those projectiles are live as it says, and the rest are untouched. */
  ghost predicate Striking(row: BuildingManagers.BuildingManager, shots: seq<GameObject>, w0: seq<Wall>, s0: seq<Shot>,
                           damage: int, i: int)
    reads row, row.buildings, set k | 0 <= k < |row.buildings| :: row.buildings[k].obj, set o | o in shots
  {
    0 <= i <= |shots| == |s0| &&
    Walls(row.buildings) == Volley(w0, s0, damage, i).0 &&
    (forall k :: 0 <= k < i ==> shots[k].active == Volley(w0, s0, damage, i).1[k]) &&
    (forall k :: i <= k < |shots| ==> ShotOf(shots[k]) == s0[k])
  }

  /** A phase of projectiles against the row: each projectile in turn, as
      the volley over their values says.  The result marks the projectiles
      spent on a building. */
  method StrikeBuildings(row: BuildingManagers.BuildingManager, shots: seq<GameObject>, damage: int) returns (struck: seq<bool>)
    requires row.Valid() && NoDup(shots) && forall k :: 0 <= k < |shots| ==> shots[k] !in row.Repr
    modifies Objects(shots)`active, row.Repr - {row}
    ensures row.Valid() && row.buildings == old(row.buildings) && row.Repr == old(row.Repr)
    ensures var v := Volley(old(Walls(row.buildings)), old(Shots(shots)), damage, |shots|);
      Walls(row.buildings) == v.0 && (forall k :: 0 <= k < |shots| ==> shots[k].active == v.1[k]) &&
      Marks(struck, old(Shots(shots)), v.1)
  {
    ghost var w0 := Walls(row.buildings);
    ghost var s0 := Shots(shots);
    struck := [];
    var i := 0;
    while i < |shots|
      invariant 0 <= i <= |shots|
      invariant row.Valid() && row.buildings == old(row.buildings) && row.Repr == old(row.Repr)
      invariant Striking(row, shots, w0, s0, damage, i)
      invariant Marks(struck, s0, Volley(w0, s0, damage, i).1)
    {
      var hit := StrikeStep(row, shots, w0, s0, damage, i, shots[i]);
      MarksGrow(struck, s0, Volley(w0, s0, damage, i).1, hit);
      struck := struck + [hit];
      i := i + 1;
    }
  }

  /** `struck` marks the projectiles that were live and are spent by `live`. */
  ghost predicate Marks(struck: seq<bool>, s0: seq<Shot>, live: seq<bool>) {
    |struck| == |live| <= |s0| && forall k :: 0 <= k < |struck| ==> struck[k] == (s0[k].live && !live[k])
  }

  lemma {:induction false} MarksGrow(struck: seq<bool>, s0: seq<Shot>, live: seq<bool>, hit: bool)
    requires Marks(struck, s0, live) && |live| < |s0| && (hit ==> s0[|live|].live)
    ensures Marks(struck + [hit], s0, live + [s0[|live|].live && !hit])
  {
  }

  /** The turn of projectile `i`. */
  method StrikeStep(row: BuildingManagers.BuildingManager, shots: seq<GameObject>, ghost w0: seq<Wall>, ghost s0: seq<Shot>,
                    damage: int, i: int, shot: GameObject) returns (hit: bool)
    requires row.Valid() && NoDup(shots) && forall k :: 0 <= k < |shots| ==> shots[k] !in row.Repr
    requires 0 <= i < |shots| && shots[i] == shot && Striking(row, shots, w0, s0, damage, i)
    modifies shot`active, row.Repr - {row}
    ensures row.Valid() && row.buildings == old(row.buildings) && row.Repr == old(row.Repr)
    ensures Striking(row, shots, w0, s0, damage, i + 1)
    ensures hit ==> s0[i].live
    ensures Volley(w0, s0, damage, i + 1).1 == Volley(w0, s0, damage, i).1 + [s0[i].live && !hit]
  {
    ghost var v := Volley(w0, s0, damage, i);
    hit := StrikeOne(row, shot, damage);
    ghost var f := Fire(v.0, s0[i], damage);
    assert Volley(w0, s0, damage, i + 1) == (f.0, v.1 + [s0[i].live && !f.1]);
  }

  /** A bomb phase against the row: the volley as for bullets, and a small
      burst of ten particles at every bomb spent on a building. */
  method BombBuildings(row: BuildingManagers.BuildingManager, shots: seq<GameObject>, damage: int,
                       bursts: Explosions.ExplosionSystem, rng: Stream) returns (rng': Stream)
    requires row.Valid() && NoDup(shots) && forall k :: 0 <= k < |shots| ==> shots[k] !in row.Repr
    requires bursts.Valid() && row.Repr !! bursts.Repr
    modifies Objects(shots)`active, row.Repr - {row}, bursts`explosions, bursts`Repr
    ensures row.Valid() && row.buildings == old(row.buildings) && row.Repr == old(row.Repr)
    ensures bursts.Valid() && fresh(bursts.Repr - old(bursts.Repr))
    ensures var v := Volley(old(Walls(row.buildings)), old(Shots(shots)), damage, |shots|);
      Walls(row.buildings) == v.0 && (forall k :: 0 <= k < |shots| ==> shots[k].active == v.1[k]) &&
      Burst(bursts.explosions, old(bursts.explosions), rng, rng', Spent(old(Shots(shots)), v.1, |shots|))
  {
    ghost var s0 := Shots(shots);
    ghost var v := Volley(Walls(row.buildings), s0, damage, |shots|);
    var struck := StrikeBuildings(row, shots, damage);
    MarksCount(struck, s0, v.1, |struck|);
    rng' := BurstAll(bursts, shots, struck, rng);
  }

  /** `spent` bursts of ten particles have been added after `e0`, drawing from `rng`. */
  ghost predicate Burst(es: seq<Explosions.ExplosionEffect>, e0: seq<Explosions.ExplosionEffect>, rng: Stream, now: Stream, spent: nat) {
    |es| == |e0| + spent && es[..|e0|] == e0 && now == rng.(next := rng.next + Explosions.DRAWS_PER_PARTICLE * 10 * spent)
  }

  /** A burst at each projectile marked struck, in order. */
  method BurstAll(bursts: Explosions.ExplosionSystem, shots: seq<GameObject>, struck: seq<bool>, rng: Stream) returns (rng': Stream)
    requires bursts.Valid() && |struck| == |shots|
    modifies bursts`explosions, bursts`Repr
    ensures bursts.Valid() && fresh(bursts.Repr - old(bursts.Repr))
    ensures Burst(bursts.explosions, old(bursts.explosions), rng, rng', Count(struck, |struck|))
  {
    rng' := rng;
    var i := 0;
    while i < |shots|
      invariant 0 <= i <= |shots|
      invariant bursts.Valid() && fresh(bursts.Repr - old(bursts.Repr))
      invariant Burst(bursts.explosions, old(bursts.explosions), rng, rng', Count(struck, i))
    {
      if struck[i] {
        ghost var es := bursts.explosions;
        var r := bursts.CreateBuildingHitExplosion(shots[i].x, shots[i].y, rng');
        BurstGrows(es, bursts.explosions, old(bursts.explosions), rng, rng', r, Count(struck, i));
        rng' := r;
      }
      i := i + 1;
    }
  }

  /** How many of the first `n` marks are set. */
  function Count(marks: seq<bool>, n: nat): (c: nat)
    requires n <= |marks|
    ensures c <= n
  {
    if n == 0 then 0 else Count(marks, n - 1) + if marks[n - 1] then 1 else 0
  }

  /** The marks of a volley count the projectiles it spent. */
  lemma {:induction false} MarksCount(struck: seq<bool>, s0: seq<Shot>, live: seq<bool>, n: nat)
    requires Marks(struck, s0, live) && n <= |struck|
    ensures Count(struck, n) == Spent(s0, live, n)
  {
    if n > 0 {
      MarksCount(struck, s0, live, n - 1);
    }
  }

  /** One more burst keeps the account of `Burst`. */
  lemma {:induction false} BurstGrows(es: seq<Explosions.ExplosionEffect>, es': seq<Explosions.ExplosionEffect>,
                                      e0: seq<Explosions.ExplosionEffect>, rng0: Stream, rng: Stream, rng': Stream, spent: nat)
    requires Burst(es, e0, rng0, rng, spent)
    requires |es'| == |es| + 1 && es'[..|es|] == es && rng' == rng.(next := rng.next + Explosions.DRAWS_PER_PARTICLE * 10)
    ensures Burst(es', e0, rng0, rng', spent + 1)
  {
    assert es'[..|e0|] == es[..|e0|];
  }

  /** The first live projectile whose box strictly overlaps the target's
      (checkAABBCollision), or -1 when there is none. */
  ghost predicate FirstStrike(shots: seq<GameObject>, target: GameObject, k: int)
    reads target, set o | o in shots
  {
    -1 <= k < |shots| &&
    (k >= 0 ==> shots[k].active && Overlapping(shots[k].Bounds(), target.Bounds())) &&
    forall j :: 0 <= j < |shots| && (k < 0 || j < k) ==> !(shots[j].active && Overlapping(shots[j].Bounds(), target.Bounds()))
  }

  /** The search of the UFO phase, which stops at the first hit. */
  method FindHit(shots: seq<GameObject>, target: GameObject) returns (k: int)
    ensures FirstStrike(shots, target, k)
  {
    var i := 0;
    while i < |shots|
      invariant 0 <= i <= |shots|
      invariant forall j :: 0 <= j < i ==> !(shots[j].active && Overlapping(shots[j].Bounds(), target.Bounds()))
    {
      var bullet := shots[i];
      if bullet.active {
        if bullet.x < target.x + target.width && bullet.x + bullet.width > target.x &&
           bullet.y < target.y + target.height && bullet.y + bullet.height > target.y {
          return i;
        }
      }
      i := i + 1;
    }
    return -1;
  }

  /** The UFO phase: with a UFO in play, the first live bullet that strictly
      overlaps it is spent, the UFO is destroyed and its points are scored;
      only one bullet can hit it.  The result is that bullet's position, or -1. */
  method ShootDown(shots: seq<GameObject>, ufos: UfoSystem, scoring: ScoringSystem, now: int) returns (k: int)
    requires ufos.Valid() && scoring.Valid() && NoDup(shots)
    requires forall j :: 0 <= j < |shots| ==> shots[j] !in ufos.Footprint()
    modifies Objects(shots)`active, ufos`ufo, ufos.Footprint(), scoring
    ensures ufos.Valid() && scoring.Valid() && -1 <= k < |shots|
    ensures !old(ufos.IsActive()) ==> k == -1
    ensures old(ufos.IsActive()) ==> old(FirstStrike(shots, ufos.ufo.value.obj, k))
    ensures k >= 0 ==>
      !shots[k].active && ufos.ufo.None? && !old(ufos.ufo.value.obj).active &&
      scoring.comboHalves == NextHalves(old(scoring.comboHalves), now - old(scoring.lastHitTime)) &&
      scoring.score == old(scoring.score) + Award(old(ufos.ufo.value.pointValue), scoring.comboHalves) &&
      scoring.lastHitTime == now &&
      scoring.scoreHistory == old(scoring.scoreHistory) +
        [ScoreEvent(Award(old(ufos.ufo.value.pointValue), scoring.comboHalves),
                    "ufo" + " (" + MultiplierText(scoring.comboHalves) + "x)", now)] &&
      scoring.highScore == if scoring.score > old(scoring.highScore) then scoring.score else old(scoring.highScore)
    ensures k < 0 ==> ufos.ufo == old(ufos.ufo) && unchanged(scoring)
    ensures forall j :: 0 <= j < |shots| && j != k ==> shots[j].active == old(shots[j].active)
  {
    k := -1;
    if ufos.ufo.None? || !ufos.ufo.value.obj.active {
      return;
    }
    var target := ufos.ufo.value.obj;
    k := FindHit(shots, target);
    if k >= 0 {
      shots[k].active := false;
      var points := ufos.DestroyUFO();
      scoring.AddScore(points, "ufo", now);
    }
  }

  /** Both entities of a contact leave play. */
  method Retire(c: Contact)
    modifies c.entity1`active, c.entity2`active
    ensures !c.entity1.active && !c.entity2.active
  {
    c.entity1.Destroy();
    c.entity2.Destroy();
  }

  /** The scoring system after `i` alien hits of one frame at `now`, from the
      score, high score, history length, last hit time and multiplier it had
      before the first of them. */
  ghost predicate Tallied(scoring: ScoringSystem, score0: int, high0: int, len0: int, last0: int,
                          halves: int, now: int, i: nat)
    reads scoring
  {
    2 <= halves <= 6 && scoring.Valid() &&
    scoring.score == score0 + RunPoints(ALIEN_POINTS, halves, now - last0, i) &&
    scoring.comboHalves == ComboAfter(halves, now - last0, i) &&
    scoring.lastHitTime == (if i == 0 then last0 else now) &&
    |scoring.scoreHistory| == len0 + i &&
    scoring.highScore == if scoring.score > high0 then scoring.score else high0
  }

  /** One more alien hit scored at `now`, extending the tally by one. */
  method ScoreAlien(scoring: ScoringSystem, ghost score0: int, ghost high0: int, ghost len0: int, ghost last0: int,
                    ghost halves: int, now: int, ghost i: nat)
    requires Tallied(scoring, score0, high0, len0, last0, halves, now, i)
    modifies scoring
    ensures Tallied(scoring, score0, high0, len0, last0, halves, now, i + 1)
  {
    scoring.AddAlienScore(now);
  }

  /** The alien phase: for each contact in turn the bullet and the alien are
      destroyed and an alien hit is scored at the frame's time `now`, so an
      alien reported twice is scored twice. */
  method ApplyAlienHits(records: seq<Contact>, shots: seq<GameObject>, targets: seq<GameObject>, scoring: ScoringSystem, now: int)
    requires scoring.Valid()
    requires forall c :: c in records ==> c.entity1 in shots && c.entity2 in targets
    modifies Objects(shots)`active, Objects(targets)`active, scoring
    ensures scoring.Valid()
    ensures forall c :: c in records ==> !c.entity1.active && !c.entity2.active
    ensures forall o :: o in shots + targets && o !in Involved(records) ==> o.active == old(o.active)
    ensures var gap := now - old(scoring.lastHitTime);
      scoring.score == old(scoring.score) + RunPoints(ALIEN_POINTS, old(scoring.comboHalves), gap, |records|) &&
      scoring.comboHalves == ComboAfter(old(scoring.comboHalves), gap, |records|)
    ensures scoring.lastHitTime == if records == [] then old(scoring.lastHitTime) else now
    ensures |scoring.scoreHistory| == |old(scoring.scoreHistory)| + |records|
    ensures scoring.highScore == if scoring.score > old(scoring.highScore) then scoring.score else old(scoring.highScore)
  {
    ghost var score0, high0, len0, last0, halves := scoring.score, scoring.highScore, |scoring.scoreHistory|, scoring.lastHitTime, scoring.comboHalves;
    var i := 0;
    while i < |records|
      invariant 0 <= i <= |records|
      invariant forall k :: 0 <= k < i ==> !records[k].entity1.active && !records[k].entity2.active
      invariant forall o :: o in shots + targets && o !in Involved(records) ==> o.active == old(o.active)
      invariant Tallied(scoring, score0, high0, len0, last0, halves, now, i)
    {
      Retire(records[i]);
      ScoreAlien(scoring, score0, high0, len0, last0, halves, now, i);
      i := i + 1;
    }
  }

  /** The alien phase with its detection: the contacts the collision system
      finds between the bullets and the aliens, applied in its order. */
  method AlienPhase(collisions: CollisionSystem, shots: seq<GameObject>, targets: seq<GameObject>,
                    scoring: ScoringSystem, now: int)
    requires scoring.Valid()
    modifies collisions`spatialGrid, Objects(shots)`active, Objects(targets)`active, scoring
    ensures scoring.Valid()
    ensures var records := old(BulletAlienContacts(shots, targets));
      var gap := now - old(scoring.lastHitTime);
      (forall c :: c in records ==> !c.entity1.active && !c.entity2.active) &&
      (forall o :: o in shots + targets && o !in Involved(records) ==> o.active == old(o.active)) &&
      scoring.score == old(scoring.score) + RunPoints(ALIEN_POINTS, old(scoring.comboHalves), gap, |records|)
  {
    ghost var expected := BulletAlienContacts(shots, targets);
    var records := collisions.CheckBulletAlienCollisions(shots, targets);
    assert records == expected;
    ContactsWithin(shots, targets);
    ApplyAlienHits(records, shots, targets, scoring, now);
  }

  /** The bomb-player phase: every bomb in a contact is destroyed; the first
      contact while the cannon is not already respawning also bursts thirty
      particles at the cannon's centre and costs a life through the life
      manager.  Later contacts in the same frame only destroy their bombs. */
  method BombsHitPlayer(records: seq<Contact>, bombs: seq<GameObject>, lives: PlayerLifeManager,
                        bursts: Explosions.ExplosionSystem, now: int, rng: Stream) returns (rng': Stream)
    requires lives.Valid() && bursts.Valid() && lives.player.obj !in bombs
    requires forall c :: c in records ==> c.entity1 in bombs
    modifies Objects(bombs)`active, lives`lastDeathTime, lives`isRespawning, lives.player`lives
    modifies lives.player.obj`active, bursts`explosions, bursts`Repr
    ensures lives.Valid() && bursts.Valid() && fresh(bursts.Repr - old(bursts.Repr))
    ensures forall c :: c in records ==> !c.entity1.active
    ensures forall o :: o in bombs && o !in Projectiles(records) ==> o.active == old(o.active)
    ensures records == [] || old(lives.isRespawning) ==>
      lives.isRespawning == old(lives.isRespawning) && lives.lastDeathTime == old(lives.lastDeathTime) &&
      lives.player.lives == old(lives.player.lives) && lives.player.obj.active == old(lives.player.obj.active) &&
      bursts.explosions == old(bursts.explosions) && rng' == rng
    ensures records != [] && !old(lives.isRespawning) ==>
      lives.isRespawning && lives.lastDeathTime == now && lives.player.lives == LivesAfterHit(old(lives.player.lives)) &&
      !lives.player.obj.active && Died(bursts.explosions, old(bursts.explosions), lives.player.obj) &&
      rng' == rng.(next := rng.next + Explosions.DRAWS_PER_PARTICLE * 30)
  {
    rng' := rng;
    var i := 0;
    while i < |records|
      invariant 0 <= i <= |records|
      invariant lives.Valid() && bursts.Valid() && fresh(bursts.Repr - old(bursts.Repr))
      invariant forall k :: 0 <= k < i ==> !records[k].entity1.active
      invariant forall o :: o in bombs && o !in Projectiles(records) ==> o.active == old(o.active)
      invariant i == 0 || old(lives.isRespawning) ==>
        lives.isRespawning == old(lives.isRespawning) && lives.lastDeathTime == old(lives.lastDeathTime) &&
        lives.player.lives == old(lives.player.lives) && lives.player.obj.active == old(lives.player.obj.active) &&
        bursts.explosions == old(bursts.explosions) && rng' == rng
      invariant i > 0 && !old(lives.isRespawning) ==>
        lives.isRespawning && lives.lastDeathTime == now && lives.player.lives == LivesAfterHit(old(lives.player.lives)) &&
        !lives.player.obj.active && Died(bursts.explosions, old(bursts.explosions), lives.player.obj) &&
        rng' == rng.(next := rng.next + Explosions.DRAWS_PER_PARTICLE * 30)
    {
      var collision := records[i];
      collision.entity1.Destroy();
      if !lives.IsPlayerRespawning() {
        var player := lives.player.obj;
        rng' := bursts.CreatePlayerDeathExplosion(player.x + player.width / 2.0, player.y + player.height / 2.0, rng');
        var scheduled := lives.HandlePlayerDeath(now);
      }
      i := i + 1;
    }
  }

  /** The bomb-player phase with its detection, taken only while the cannon
      is active: the contacts the collision system finds between the bombs
      and the cannon, applied in its order. */
  method PlayerPhase(collisions: CollisionSystem, bombs: seq<GameObject>, lives: PlayerLifeManager,
                     bursts: Explosions.ExplosionSystem, now: int, rng: Stream) returns (rng': Stream)
    requires lives.Valid() && bursts.Valid() && lives.player.obj !in bombs
    modifies Objects(bombs)`active, lives`lastDeathTime, lives`isRespawning, lives.player`lives
    modifies lives.player.obj`active, bursts`explosions, bursts`Repr
    ensures lives.Valid() && bursts.Valid() && fresh(bursts.Repr - old(bursts.Repr))
    ensures var records := old(BombPlayerContacts(bombs, lives.player.obj));
      (forall c :: c in records ==> !c.entity1.active) &&
      (forall o :: o in bombs && o !in Projectiles(records) ==> o.active == old(o.active)) &&
      (records == [] || old(lives.isRespawning) ==>
        lives.isRespawning == old(lives.isRespawning) && lives.lastDeathTime == old(lives.lastDeathTime) &&
        lives.player.lives == old(lives.player.lives) && lives.player.obj.active == old(lives.player.obj.active) &&
        bursts.explosions == old(bursts.explosions) && rng' == rng) &&
      (records != [] && !old(lives.isRespawning) ==>
        lives.isRespawning && lives.lastDeathTime == now && lives.player.lives == LivesAfterHit(old(lives.player.lives)) &&
        !lives.player.obj.active && Died(bursts.explosions, old(bursts.explosions), lives.player.obj) &&
        rng' == rng.(next := rng.next + Explosions.DRAWS_PER_PARTICLE * 30))
  {
    rng' := rng;
    if lives.player.obj.active {
      ghost var expected := BombPlayerContacts(bombs, lives.player.obj);
      var records := collisions.CheckBombPlayerCollisions(bombs, lives.player.obj);
      assert records == expected;
      BombPlayerContactsExact(bombs, lives.player.obj);
      rng' := BombsHitPlayer(records, bombs, lives, bursts, now, rng);
    }
  }

  /** One burst of thirty particles at the centre of the cannon's box has
      been added after `e0`. */
  ghost predicate Died(es: seq<Explosions.ExplosionEffect>, e0: seq<Explosions.ExplosionEffect>, p: GameObject)
    reads p, set e | e in es
  {
    |es| == |e0| + 1 && es[..|e0|] == e0 &&
    es[|e0|].x == p.x + p.width / 2.0 && es[|e0|].y == p.y + p.height / 2.0 && |es[|e0|].particles| == 30
  }
}
