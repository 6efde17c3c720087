// Explosions.  A burst is a set of particles, each alive for half a second
// to a second and a half; a burst is dropped by the update that finds all of
// its particles dead, and the system keeps only the live bursts, in order.
module Explosions {
  import opened SeqUtil
  import opened RandomSource

  /** The lifetime part of one particle: what is left of its life, what it
      started with and whether it is still shown. */
  datatype Particle = Particle(lifetime: real, maxLifetime: real, active: bool)

  /** A shown particle has life left. */
  predicate Alive(p: Particle) {
    p.active ==> p.lifetime > 0.0
  }

  /** Random draws per particle: angle, speed, size, lifetime and colour. */
  const DRAWS_PER_PARTICLE: nat := 5

  /** The lifetime a draw gives: 500 ms plus up to a second. */
  function Lifetime(r: Draw): (t: real)
    ensures 500.0 <= t < 1500.0
  {
    500.0 + r * 1000.0
  }

  /** Particle `i` of a burst that draws from `rng`: its lifetime is the
      fourth of its five draws. */
  function Fresh(rng: Stream, i: nat): (p: Particle)
    ensures p.active && Alive(p) && p.lifetime == p.maxLifetime
    ensures 500.0 <= p.lifetime < 1500.0
  {
    var t := Lifetime(rng.At(rng.next + DRAWS_PER_PARTICLE * i + 3));
    Particle(t, t, true)
  }

  /** One frame of `dt` milliseconds for one particle: a dead particle stays
      as it is; a live one loses `dt` of its life and dies when none is left. */
  function Decay(p: Particle, dt: real): (q: Particle)
    ensures q.maxLifetime == p.maxLifetime
    ensures !p.active ==> q == p
    ensures p.active ==> q.lifetime == p.lifetime - dt && (q.active <==> q.lifetime > 0.0)
    ensures Alive(q)
  {
    if !p.active then p
    else
      var t := p.lifetime - dt;
      Particle(t, p.maxLifetime, t > 0.0)
  }

  /** `n` frames of `dt` each. */
  function DecayFor(p: Particle, dt: real, n: nat): Particle {
    if n == 0 then p else Decay(DecayFor(p, dt, n - 1), dt)
  }

  /** A particle still shown after `n` frames has lost exactly `n * dt`. */
  lemma {:induction false} DecayForLifetime(p: Particle, dt: real, n: nat)
    ensures DecayFor(p, dt, n).active ==> p.active && DecayFor(p, dt, n).lifetime == p.lifetime - n as real * dt
  {
    if n > 0 {
      DecayForLifetime(p, dt, n - 1);
    }
  }

  /** With frames of positive length a particle is gone once the frames add
      up to its remaining life. */
  lemma {:induction false} ParticleDies(p: Particle, dt: real, n: nat)
    requires Alive(p) && dt > 0.0 && p.lifetime <= n as real * dt
    ensures !DecayFor(p, dt, n).active
  {
    DecayForLifetime(p, dt, n);
    if n > 0 {
      DecayForLifetime(p, dt, n - 1);
    }
  }

  /** Every particle after one frame. */
  function DecayAll(ps: seq<Particle>, dt: real): (qs: seq<Particle>)
    ensures |qs| == |ps| && forall i :: 0 <= i < |ps| ==> qs[i] == Decay(ps[i], dt)
  {
    seq(|ps|, i requires 0 <= i < |ps| => Decay(ps[i], dt))
  }

  /** Some particle is still shown. */
  predicate AnyActive(ps: seq<Particle>) {
    exists i :: 0 <= i < |ps| && ps[i].active
  }

  /** The number of particles still shown. */
  function ActiveCount(ps: seq<Particle>): (n: nat)
    ensures n <= |ps|
  {
    if ps == [] then 0 else (if ps[|ps| - 1].active then 1 else 0) + ActiveCount(ps[..|ps| - 1])
  }

  /** No particle is counted exactly when none is shown. */
  lemma {:induction false} ActiveCountZero(ps: seq<Particle>)
    ensures ActiveCount(ps) == 0 <==> !AnyActive(ps)
  {
    if ps != [] {
      var init := ps[..|ps| - 1];
      ActiveCountZero(init);
      if AnyActive(init) {
        var i :| 0 <= i < |init| && init[i].active;
        assert ps[i].active;
      }
      if AnyActive(ps) && !ps[|ps| - 1].active {
        var i :| 0 <= i < |ps| && ps[i].active;
        assert init[i].active;
      }
    }
  }

  /** A frame never brings a particle back: the count of shown particles
      does not grow. */
  lemma {:induction false} DecayCount(ps: seq<Particle>, dt: real)
    ensures ActiveCount(DecayAll(ps, dt)) <= ActiveCount(ps)
  {
    if ps != [] {
      var init := ps[..|ps| - 1];
      DecayCount(init, dt);
      assert DecayAll(ps, dt)[..|ps| - 1] == DecayAll(init, dt);
    }
  }

  class ExplosionEffect {
    var particles: seq<Particle>
    const x: real
    const y: real
    var isActive: bool

    /** A burst of `count` particles at (x, y), each drawing five numbers
        from `rng` in turn; every particle starts shown with its own lifetime. */
    constructor (x: real, y: real, count: nat, rng: Stream)
      ensures this.x == x && this.y == y && isActive
      ensures |particles| == count && forall i :: 0 <= i < count ==> particles[i] == Fresh(rng, i)
    {
      this.x := x;
      this.y := y;
      isActive := true;
      particles := [];
      new;
      var i := 0;
      while i < count
        invariant 0 <= i <= count && |particles| == i && isActive
        invariant forall k :: 0 <= k < i ==> particles[k] == Fresh(rng, k)
      {
        var lifetime := Lifetime(rng.At(rng.next + DRAWS_PER_PARTICLE * i + 3));
        particles := particles + [Particle(lifetime, lifetime, true)];
        i := i + 1;
      }
    }

    /** One frame: every shown particle loses `deltaTime` of its life, and
        the burst ends when it had no shown particle at the start of the frame. */
    method Update(deltaTime: real)
      modifies this`particles, this`isActive
      ensures particles == DecayAll(old(particles), deltaTime)
      ensures isActive == (old(isActive) && AnyActive(old(particles)))
    {
      var allParticlesDead := true;
      var i := 0;
      while i < |particles|
        invariant 0 <= i <= |particles| == |old(particles)| && isActive == old(isActive)
        invariant forall k :: 0 <= k < i ==> particles[k] == Decay(old(particles)[k], deltaTime)
        invariant forall k :: i <= k < |particles| ==> particles[k] == old(particles)[k]
        invariant allParticlesDead <==> forall k :: 0 <= k < i ==> !old(particles)[k].active
      {
        var particle := particles[i];
        if particle.active {
          allParticlesDead := false;
          var lifetime := particle.lifetime - deltaTime;
          particles := particles[i := Particle(lifetime, particle.maxLifetime, !(lifetime <= 0.0))];
        }
        i := i + 1;
      }
      if allParticlesDead {
        isActive := false;
      }
    }

    predicate IsExpired()
      reads this
    {
      !isActive
    }
  }

  /** Whether each burst of `es` still has a shown particle. */
  function LiveMarks(es: seq<ExplosionEffect>): (m: seq<bool>)
    reads es
    ensures |m| == |es| && forall i :: 0 <= i < |es| ==> m[i] == AnyActive(es[i].particles)
  {
    if es == [] then [] else LiveMarks(es[..|es| - 1]) + [AnyActive(es[|es| - 1].particles)]
  }

  /** The shown particles of all the bursts. */
  function TotalParticles(es: seq<ExplosionEffect>): (n: nat)
    reads es
    ensures n == 0 <==> forall i :: 0 <= i < |es| ==> !AnyActive(es[i].particles)
  {
    if es == [] then 0
    else
      ActiveCountZero(es[|es| - 1].particles);
      ActiveCount(es[|es| - 1].particles) + TotalParticles(es[..|es| - 1])
  }

  /** The particle counts used in the three burst sizes. */
  datatype Size = Small | Medium | Large

  function ParticleCount(size: Size): (n: nat)
    ensures n == 10 || n == 20 || n == 40
    ensures size == Small <==> n == 10
  {
    match size
    case Small => 10
    case Medium => 20
    case Large => 40
  }

  class ExplosionSystem {
    var explosions: seq<ExplosionEffect>
    ghost var Repr: set<object>

    /** Each burst is listed once, belongs to the system and has not ended. */
    ghost predicate Valid()
      reads this, Repr
    {
      this in Repr && NoDup(explosions) &&
      forall i :: 0 <= i < |explosions| ==> explosions[i] in Repr && explosions[i].isActive
    }

    constructor ()
      ensures Valid() && fresh(Repr) && explosions == []
    {
      explosions := [];
      Repr := {this};
    }

    /** Adds a burst of `count` particles at (x, y) at the end of the list,
        consuming five draws per particle. */
    method Push(x: real, y: real, count: nat, rng: Stream) returns (rng': Stream)
      requires Valid()
      modifies this`explosions, this`Repr
      ensures Valid() && fresh(Repr - old(Repr))
      ensures |explosions| == |old(explosions)| + 1 && explosions[..|old(explosions)|] == old(explosions)
      ensures var e := explosions[|explosions| - 1];
        fresh(e) && e.x == x && e.y == y && |e.particles| == count &&
        forall i :: 0 <= i < count ==> e.particles[i] == Fresh(rng, i)
      ensures rng' == rng.(next := rng.next + DRAWS_PER_PARTICLE * count)
    {
      var e := new ExplosionEffect(x, y, count, rng);
      explosions := explosions + [e];
      Repr := Repr + {e};
      rng' := rng.(next := rng.next + DRAWS_PER_PARTICLE * count);
      assert explosions[..|old(explosions)|] == old(explosions);
    }

    /** A burst of 10, 20 or 40 particles by size. */
    method CreateExplosion(x: real, y: real, size: Size, rng: Stream) returns (rng': Stream)
      requires Valid()
      modifies this`explosions, this`Repr
      ensures Valid() && fresh(Repr - old(Repr))
      ensures |explosions| == |old(explosions)| + 1 && explosions[..|old(explosions)|] == old(explosions)
      ensures var e := explosions[|explosions| - 1];
        fresh(e) && e.x == x && e.y == y && |e.particles| == ParticleCount(size)
      ensures rng' == rng.(next := rng.next + DRAWS_PER_PARTICLE * ParticleCount(size))
    {
      rng' := Push(x, y, ParticleCount(size), rng);
    }

    /** The player's death: a burst of 30 now; the two follow-up bursts
        come from the timed calls below. */
    method CreatePlayerDeathExplosion(x: real, y: real, rng: Stream) returns (rng': Stream)
      requires Valid()
      modifies this`explosions, this`Repr
      ensures Valid() && fresh(Repr - old(Repr))
      ensures |explosions| == |old(explosions)| + 1 && explosions[..|old(explosions)|] == old(explosions)
      ensures var e := explosions[|explosions| - 1];
        fresh(e) && e.x == x && e.y == y && |e.particles| == 30
      ensures rng' == rng.(next := rng.next + DRAWS_PER_PARTICLE * 30)
    {
      rng' := Push(x, y, 30, rng);
    }

    /** The first follow-up of a death at (x, y), 100 ms later: 15 particles
        at (x + 10, y + 5). */
    method PlayerDeathFollowUpRight(x: real, y: real, rng: Stream) returns (rng': Stream)
      requires Valid()
      modifies this`explosions, this`Repr
      ensures Valid() && fresh(Repr - old(Repr))
      ensures |explosions| == |old(explosions)| + 1 && explosions[..|old(explosions)|] == old(explosions)
      ensures var e := explosions[|explosions| - 1];
        fresh(e) && e.x == x + 10.0 && e.y == y + 5.0 && |e.particles| == 15
      ensures rng' == rng.(next := rng.next + DRAWS_PER_PARTICLE * 15)
    {
      rng' := Push(x + 10.0, y + 5.0, 15, rng);
    }

    /** The second follow-up, 200 ms after the death: 15 particles at (x - 10, y + 5). */
    method PlayerDeathFollowUpLeft(x: real, y: real, rng: Stream) returns (rng': Stream)
      requires Valid()
      modifies this`explosions, this`Repr
      ensures Valid() && fresh(Repr - old(Repr))
      ensures |explosions| == |old(explosions)| + 1 && explosions[..|old(explosions)|] == old(explosions)
      ensures var e := explosions[|explosions| - 1];
        fresh(e) && e.x == x - 10.0 && e.y == y + 5.0 && |e.particles| == 15
      ensures rng' == rng.(next := rng.next + DRAWS_PER_PARTICLE * 15)
    {
      rng' := Push(x - 10.0, y + 5.0, 15, rng);
    }

    /** Aliens and buildings that are hit burst small. */
    method CreateAlienDeathExplosion(x: real, y: real, rng: Stream) returns (rng': Stream)
      requires Valid()
      modifies this`explosions, this`Repr
      ensures Valid() && fresh(Repr - old(Repr))
      ensures |explosions| == |old(explosions)| + 1 && explosions[..|old(explosions)|] == old(explosions)
      ensures |explosions[|explosions| - 1].particles| == 10
      ensures rng' == rng.(next := rng.next + DRAWS_PER_PARTICLE * 10)
    {
      rng' := CreateExplosion(x, y, Small, rng);
    }

    method CreateBuildingHitExplosion(x: real, y: real, rng: Stream) returns (rng': Stream)
      requires Valid()
      modifies this`explosions, this`Repr
      ensures Valid() && fresh(Repr - old(Repr))
      ensures |explosions| == |old(explosions)| + 1 && explosions[..|old(explosions)|] == old(explosions)
      ensures |explosions[|explosions| - 1].particles| == 10
      ensures rng' == rng.(next := rng.next + DRAWS_PER_PARTICLE * 10)
    {
      rng' := CreateExplosion(x, y, Small, rng);
    }

    /** One frame for every burst, last first: each burst's particles decay,
        and the bursts that had no shown particle are dropped; the others
        stay in their order. */
    method Update(deltaTime: real)
      requires Valid()
      modifies Repr
      ensures Valid() && Repr == old(Repr)
      ensures explosions == Kept(old(explosions), old(LiveMarks(explosions)))
      ensures forall i :: 0 <= i < |old(explosions)| ==>
        old(explosions)[i].particles == DecayAll(old(explosions[i].particles), deltaTime)
    {
      ghost var act := explosions;
      ghost var marks := LiveMarks(explosions);
      Sweep(act, marks, deltaTime);
      Finish(act, marks);
    }

    /** The backward sweep over the list `act`: every burst is updated and
        the ended ones are spliced out. */
    method Sweep(ghost act: seq<ExplosionEffect>, ghost marks: seq<bool>, deltaTime: real)
      requires explosions == act && NoDup(act) && marks == LiveMarks(act)
      requires forall k :: 0 <= k < |act| ==> act[k].isActive
      modifies this`explosions, act
      ensures explosions == act[..0] + Kept(act[0..], marks[0..]) && NoDup(explosions)
      ensures forall k :: 0 <= k < |act| ==>
        act[k].particles == DecayAll(old(act[k].particles), deltaTime) && act[k].isActive == marks[k]
    {
      var i := |explosions| - 1;
      assert act[..i + 1] == act && act[i + 1..] == [] && marks[i + 1..] == [];
      while i >= 0
        invariant -1 <= i < |act|
        invariant explosions == act[..i + 1] + Kept(act[i + 1..], marks[i + 1..])
        invariant NoDup(explosions)
        invariant forall k :: 0 <= k <= i ==> unchanged(act[k])
        invariant forall k :: i < k < |act| ==>
          act[k].particles == DecayAll(old(act[k].particles), deltaTime) && act[k].isActive == marks[k]
      {
        label Before:
        i := Step(i, act, marks, deltaTime);
        forall k | i + 1 < k < |act|
          ensures act[k].particles == DecayAll(old(act[k].particles), deltaTime) && act[k].isActive == marks[k]
        {
          assert act[k].particles == old@Before(act[k].particles) && act[k].isActive == old@Before(act[k].isActive);
        }
      }
    }

    /** The end of the sweep: the list is the live bursts of `act`. */
    lemma {:induction false} Finish(act: seq<ExplosionEffect>, marks: seq<bool>)
      requires |act| == |marks| && NoDup(act) && this in Repr
      requires forall k :: 0 <= k < |act| ==> act[k] in Repr && act[k].isActive == marks[k]
      requires explosions == act[..0] + Kept(act[0..], marks[0..]) && NoDup(explosions)
      ensures explosions == Kept(act, marks) && Valid()
    {
      assert act[..0] == [] && act[0..] == act && marks[0..] == marks;
      forall e | e in explosions ensures e in Repr && e.isActive {
        KeptMembers(act, marks, e);
      }
    }

    /** One step of the backward sweep over `act`: updates burst `i` and
        splices it out when it has ended. */
    method Step(i: int, ghost act: seq<ExplosionEffect>, ghost marks: seq<bool>, deltaTime: real) returns (j: int)
      requires 0 <= i < |act| == |marks| && NoDup(act)
      requires marks[i] == AnyActive(act[i].particles) && act[i].isActive
      requires explosions == act[..i + 1] + Kept(act[i + 1..], marks[i + 1..]) && NoDup(explosions)
      modifies this`explosions, act[i]
      ensures j == i - 1
      ensures explosions == act[..j + 1] + Kept(act[j + 1..], marks[j + 1..]) && NoDup(explosions)
      ensures act[i].particles == DecayAll(old(act[i].particles), deltaTime) && act[i].isActive == marks[i]
      ensures forall k :: i < k < |act| ==> act[k].particles == old(act[k].particles) && act[k].isActive == old(act[k].isActive)
      ensures forall k :: 0 <= k < i ==> unchanged(act[k])
    {
      SweepStepOf(act, marks, i, explosions);
      var explosion := explosions[i];
      explosion.Update(deltaTime);
      if explosion.IsExpired() {
        SweepDrop(act, marks, i);
        NoDupRemoveAt(explosions, i);
        explosions := RemoveAt(explosions, i);
      } else {
        SweepKeep(act, marks, i);
      }
      j := i - 1;
    }

    /** Drops every burst. */
    method Clear()
      requires Valid()
      modifies this`explosions
      ensures Valid() && explosions == []
    {
      explosions := [];
    }

    function GetActiveExplosionCount(): (n: nat)
      reads this
      ensures n == |explosions|
    {
      |explosions|
    }

    function GetTotalParticleCount(): (n: nat)
      reads this, explosions
      ensures n == 0 <==> forall i :: 0 <= i < |explosions| ==> !AnyActive(explosions[i].particles)
    {
      TotalParticles(explosions)
    }
  }

  /** Burst `i` of the sweep is still at position `i` of the list. */
  lemma {:induction false} SweepStepOf<T>(act: seq<T>, marks: seq<bool>, i: int, list: seq<T>)
    requires 0 <= i < |act| == |marks|
    requires list == act[..i + 1] + Kept(act[i + 1..], marks[i + 1..])
    ensures i < |list| && list[i] == act[i]
  {
  }
}
