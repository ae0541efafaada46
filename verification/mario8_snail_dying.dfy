/** The dying state of the Mario-8 snail
    (src/Mario-8/src/states/entity/snail/SnailDyingState.js): the snail
    bursts into twenty particles and is cleaned up once all of them are
    gone. Particle.js is not part of this model: a particle keeps the
    arguments it was built with, and whether its own `update` leaves it
    alive is given to each update as the set of particles that survive. */
module Mario8SnailDyingState {
  import opened Common
  import opened Entities

  /** How many particles `enter` adds. */
  const BurstSize: nat := 20

  datatype Colour = Colour(r: int, g: int, b: int)

  /** The burst's colour, particle size and lifespan. */
  const BurstColour: Colour := Colour(255, 50, 150)
  const BurstParticleSize: int := 2
  const BurstLifespan: int := 100

  class Particle {
    const position: Vector
    const colour: Colour
    const size: int
    const lifespan: int
    var isAlive: bool

    constructor (position: Vector, colour: Colour, size: int, lifespan: int)
      ensures this.position == position && this.colour == colour
      ensures this.size == size && this.lifespan == lifespan && isAlive
    {
      this.position := position;
      this.colour := colour;
      this.size := size;
      this.lifespan := lifespan;
      isAlive := true;
    }

    /** The particle's own `update(dt)`: `survives` says whether it is
        still alive afterwards. */
    method Update(survives: bool)
      modifies this
      ensures isAlive == survives
    {
      isAlive := survives;
    }
  }

  /** `particles.filter((particle) => particle.isAlive)`. */
  function Living(ps: seq<Particle>): (r: seq<Particle>)
    reads set p | p in ps
    ensures |r| <= |ps|
    ensures forall i :: 0 <= i < |r| ==> r[i] in ps && r[i].isAlive
    ensures forall i :: 0 <= i < |ps| && ps[i].isAlive ==> ps[i] in r
  {
    if ps == [] then []
    else if ps[0].isAlive then [ps[0]] + Living(ps[1..])
    else Living(ps[1..])
  }

  /** When exactly the particles of `alive` are alive, the living ones are
      those of `alive`, in their order. */
  lemma {:induction false} LivingIsFilter(ps: seq<Particle>, alive: set<Particle>)
    requires forall i :: 0 <= i < |ps| ==> ps[i].isAlive == (ps[i] in alive)
    ensures Living(ps) == Filter(ps, alive)
  {
    if ps != [] {
      LivingIsFilter(ps[1..], alive);
    }
  }

  /** The snail's centre, where the burst starts. */
  function Centre(e: Entity): (r: Vector)
    reads e
    ensures r.x - e.position.x == e.dimensions.x / 2.0
    ensures r.y - e.position.y == e.dimensions.y / 2.0
  {
    Vector(e.position.x + e.dimensions.x / 2.0, e.position.y + e.dimensions.y / 2.0)
  }

  class SnailDyingState {
    const snail: Entity
    var particles: seq<Particle>

    constructor (snail: Entity)
      ensures this.snail == snail && particles == []
    {
      this.snail := snail;
      particles := [];
    }

    /** `enter()`: add twenty new live particles at the snail's centre,
        after the ones already there. */
    method Enter()
      modifies this
      ensures |particles| == |old(particles)| + BurstSize
      ensures particles[..|old(particles)|] == old(particles)
      ensures forall i :: |old(particles)| <= i < |particles| ==>
                fresh(particles[i]) && particles[i].isAlive && particles[i].position == Centre(snail)
                && particles[i].colour == BurstColour && particles[i].size == BurstParticleSize
                && particles[i].lifespan == BurstLifespan
    {
      var i := 0;
      while i < BurstSize
        invariant 0 <= i <= BurstSize
        invariant |particles| == |old(particles)| + i
        invariant particles[..|old(particles)|] == old(particles)
        invariant forall k :: |old(particles)| <= k < |particles| ==>
                    fresh(particles[k]) && particles[k].isAlive && particles[k].position == Centre(snail)
                    && particles[k].colour == BurstColour && particles[k].size == BurstParticleSize
                    && particles[k].lifespan == BurstLifespan
      {
        var q := new Particle(Vector(snail.position.x + snail.dimensions.x / 2.0, snail.position.y + snail.dimensions.y / 2.0),
                              BurstColour, BurstParticleSize, BurstLifespan);
        particles := particles + [q];
        i := i + 1;
      }
    }

    /** `update(dt)`: update every particle, keep the living ones in order,
        and mark the snail for clean-up once none is left. Nothing unmarks
        it. */
    method Update(alive: set<Particle>)
      modifies this, snail, set q | q in particles
      ensures particles == Filter(old(particles), alive)
      ensures forall i :: 0 <= i < |old(particles)| ==> old(particles)[i].isAlive == (old(particles)[i] in alive)
      ensures snail.cleanUp == (old(snail.cleanUp) || particles == [])
      ensures snail.position == old(snail.position) && snail.isDead == old(snail.isDead)
    {
      var i := 0;
      while i < |particles|
        invariant 0 <= i <= |particles|
        invariant particles == old(particles)
        invariant forall k :: 0 <= k < i ==> particles[k].isAlive == (particles[k] in alive)
        invariant snail.cleanUp == old(snail.cleanUp) && snail.position == old(snail.position)
        invariant snail.isDead == old(snail.isDead)
      {
        particles[i].Update(particles[i] in alive);
        i := i + 1;
      }
      LivingIsFilter(particles, alive);
      particles := Living(particles);
      if |particles| == 0 {
        snail.cleanUp := true;
      }
    }
  }
}
