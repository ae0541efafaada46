/** The Jumping state of the Mario-8 player
    (src/Mario-8/src/states/entity/player/PlayerJumpingState.js). Its
    `enter(parameters)`, which sets the vertical velocity to the jump force
    times the charge multiplier, is `Player.ChangeState`. */
module Mario8JumpingState {
  import opened Common
  import opened Enums
  import opened Tilemap
  import opened Collision
  import opened Physics
  import opened Entities
  import opened Mario8Player

  /** One Jumping update on values, once the head-bump test has given
      `above`, with `limit` the horizontal speed limit: a non-negative
      vertical speed switches to Falling without ending the update; a head
      bump stops the rise and switches to Falling; otherwise the player
      steers as in the air; gravity is added last. The player stays Jumping
      exactly while it still rises and has not bumped its head, and a bump
      restarts the fall from rest. */
  function AfterAbove(m: Tilemap, dims: Vector, limit: real, b: Body, dir: Direction, charging: bool, charge: real,
                      keys: Keys, dt: real, above: Completion<bool>): (r: Outcome)
    ensures r.charging == charging && r.charge == charge
    ensures r.body.position.y == b.position.y
    ensures r.state == Jumping || r.state == Falling
    ensures r.state == Jumping <==> b.velocity.y < 0.0 && above != Normal(true)
    ensures r.ok ==> above.Normal?
    ensures above == Normal(true) ==>
              r.ok && r.body.position == b.position && r.direction == dir
              && r.body.velocity == Vector(b.velocity.x, Gravity * dt)
    ensures above == Normal(false) ==>
              r.direction == (if keys.a then Left else if keys.d then Right else dir)
    ensures 0.0 <= limit && Abs(b.velocity.x) <= limit ==> Abs(r.body.velocity.x) <= limit
  {
    var st := if b.velocity.y >= 0.0 then Falling else Jumping;
    match above
    case Throw => Outcome(b, dir, st, charging, charge, false)
    case Normal(true) =>
      Outcome(Body(b.position, Vector(b.velocity.x, Gravity * dt)), dir, Falling, charging, charge, true)
    case Normal(false) =>
      var s := AirSteer(m, dims, limit, SpeedScalar * FrictionScalar, FrictionScalar, b, keys);
      var d := if keys.a then Left else if keys.d then Right else dir;
      var v := if s.ok then s.body.velocity.(y := s.body.velocity.y + Gravity * dt) else s.body.velocity;
      Outcome(Body(s.body.position, v), d, st, charging, charge, s.ok)
  }

  /** One Jumping update on values: the head-bump test at the player's
      position, then the rest of the update. */
  function JumpTick(m: Tilemap, dims: Vector, limit: real, b: Body, dir: Direction, charging: bool, charge: real, keys: Keys, dt: real): Outcome
  {
    AfterAbove(m, dims, limit, b, dir, charging, charge, keys, dt, TileCollisionAbove(m, b.position, dims))
  }

  /** The end of `update`: the entity collisions, then gravity. The player
      dies when a live entity other than itself overlaps it. */
  method Finish(p: Player, dt: real, overlapping: set<Entity>)
    modifies p, p.entity
    ensures p.entity.position == old(p.entity.position) && p.velocity == old(p.velocity).(y := old(p.velocity.y) + Gravity * dt)
    ensures p.direction == old(p.direction) && p.state == old(p.state)
    ensures p.jumpCharge == old(p.jumpCharge) && p.isChargingJump == old(p.isChargingJump)
    ensures p.entity.isDead == (old(p.entity.isDead) || SomeAlive(Colliders(p.level.entities, p.entity, overlapping)))
  {
    var collided := p.CheckEntityCollisions(overlapping);
    assert p.entity !in collided;
    p.AddGravity(dt);
  }

  /** The steering branch of `update`, taken when nothing is above: steer
      as in the air, then, when no grid read threw, the entity collisions
      and gravity. */
  method Steer(p: Player, keys: Keys, dt: real, overlapping: set<Entity>) returns (ok: bool)
    modifies p, p.entity
    ensures var s := AirSteer(p.level.tilemap, p.entity.dimensions, p.velocityLimit.x, SpeedScalar * FrictionScalar, FrictionScalar,
                              Body(old(p.entity.position), old(p.velocity)), keys);
            && ok == s.ok && p.entity.position == s.body.position
            && p.velocity == (if s.ok then s.body.velocity.(y := s.body.velocity.y + Gravity * dt) else s.body.velocity)
    ensures p.direction == (if keys.a then Left else if keys.d then Right else old(p.direction))
    ensures p.state == old(p.state) && p.jumpCharge == old(p.jumpCharge) && p.isChargingJump == old(p.isChargingJump)
    ensures p.entity.isDead == if ok then old(p.entity.isDead) || SomeAlive(Colliders(p.level.entities, p.entity, overlapping))
                               else old(p.entity.isDead)
    ensures old(p.WithinLimit()) ==> p.WithinLimit()
  {
    ok := p.SteerInAir(keys);
    if ok {
      Finish(p, dt, overlapping);
    }
  }

  /** The head-bump branch of `update`: stop the rise, switch to Falling,
      then the entity collisions and gravity. */
  method Bump(p: Player, dt: real, overlapping: set<Entity>)
    modifies p, p.entity
    ensures p.entity.position == old(p.entity.position) && p.velocity == Vector(old(p.velocity.x), Gravity * dt)
    ensures p.direction == old(p.direction) && p.state == Falling
    ensures p.jumpCharge == old(p.jumpCharge) && p.isChargingJump == old(p.isChargingJump)
    ensures p.entity.isDead == (old(p.entity.isDead) || SomeAlive(Colliders(p.level.entities, p.entity, overlapping)))
    ensures old(p.WithinLimit()) ==> p.WithinLimit()
  {
    p.velocity := p.velocity.(y := 0.0);
    p.ChangeState(Falling, 0.0);
    Finish(p, dt, overlapping);
  }

  /** `update` after its first test has set the state: the head-bump test,
      then the bump or the steering. */
  method BumpOrSteer(p: Player, keys: Keys, dt: real, overlapping: set<Entity>) returns (ok: bool)
    requires p.state == if p.velocity.y >= 0.0 then Falling else Jumping
    modifies p, p.entity
    ensures Outcome(Body(p.entity.position, p.velocity), p.direction, p.state, p.isChargingJump, p.jumpCharge, ok)
            == JumpTick(p.level.tilemap, p.entity.dimensions, p.velocityLimit.x, Body(old(p.entity.position), old(p.velocity)),
                        old(p.direction), old(p.isChargingJump), old(p.jumpCharge), keys, dt)
    ensures p.entity.isDead == if ok then old(p.entity.isDead) || SomeAlive(Colliders(p.level.entities, p.entity, overlapping))
                               else old(p.entity.isDead)
    ensures old(p.WithinLimit()) ==> p.WithinLimit()
  {
    var above := TileCollisionAbove(p.level.tilemap, p.entity.position, p.entity.dimensions);
    ghost var r := AfterAbove(p.level.tilemap, p.entity.dimensions, p.velocityLimit.x, Body(old(p.entity.position), old(p.velocity)),
                              old(p.direction), old(p.isChargingJump), old(p.jumpCharge), keys, dt, above);
    assert r == JumpTick(p.level.tilemap, p.entity.dimensions, p.velocityLimit.x, Body(old(p.entity.position), old(p.velocity)),
                         old(p.direction), old(p.isChargingJump), old(p.jumpCharge), keys, dt);
    if above.Throw? {
      return false;
    }
    if above.value {
      Bump(p, dt, overlapping);
      ok := true;
    } else {
      ok := Steer(p, keys, dt, overlapping);
    }
  }

  /** One `update`, applied in place. `ok` is false when a grid read threw,
      which skips the rest of the update, entity collisions included. */
  method Update(p: Player, keys: Keys, dt: real, overlapping: set<Entity>) returns (ok: bool)
    requires p.state == Jumping
    modifies p, p.entity
    ensures Outcome(Body(p.entity.position, p.velocity), p.direction, p.state, p.isChargingJump, p.jumpCharge, ok)
            == JumpTick(p.level.tilemap, p.entity.dimensions, p.velocityLimit.x, Body(old(p.entity.position), old(p.velocity)),
                        old(p.direction), old(p.isChargingJump), old(p.jumpCharge), keys, dt)
    ensures p.entity.isDead == if ok then old(p.entity.isDead) || SomeAlive(Colliders(p.level.entities, p.entity, overlapping))
                               else old(p.entity.isDead)
    ensures old(p.WithinLimit()) ==> p.WithinLimit()
  {
    if p.velocity.y >= 0.0 {
      p.ChangeState(Falling, 0.0);
    }
    ok := BumpOrSteer(p, keys, dt, overlapping);
  }
}
