/** The Idle state of the Mario-8 player
    (src/Mario-8/src/states/entity/player/PlayerIdleState.js). */
module Mario8IdleState {
  import opened Common
  import opened Enums
  import opened Tilemap
  import opened Collision
  import opened Physics
  import opened Entities
  import opened Mario8Player

  /** An Idle player after `chargeJump`: a fired charge switches to
      Jumping with the jump force scaled by the multiplier. */
  function Charged(b: Body, dir: Direction, charging: bool, charge: real, space: bool, dt: real): Outcome
  {
    var c := ChargeStep(charging, charge, space, dt);
    var v := if c.fired.Some? then b.velocity.(y := JumpForce * c.fired.value) else b.velocity;
    Outcome(Body(b.position, v), dir, if c.fired.Some? then Jumping else Idle, c.charging, c.charge, true)
  }

  /** The transitions of an Idle update once the wall checks have produced
      `w`: the jump charge, then two independent transition tests, so a or d
      (Walking) wins over a lost footing (Falling), which wins over a jump
      the charge has just fired. Space alone never jumps, and an overridden
      jump still has set the jump velocity. */
  function AfterWalls(m: Tilemap, dims: Vector, w: Step, dir: Direction, charging: bool, charge: real, keys: Keys, dt: real): (r: Outcome)
    ensures r.direction == dir && r.body.position == w.body.position
    ensures r.state == Jumping ==> ChargeStep(charging, charge, keys.space, dt).fired.Some?
    ensures r.ok && r.state == Jumping ==> !keys.a && !keys.d
    ensures keys.space && 0.0 <= charge && 0.0 <= dt && charge + dt < JumpChargeMax ==> r.state != Jumping
    ensures r.ok && (keys.a || keys.d) ==> r.state == Walking
    ensures r.ok <==> w.ok && TileCollisionBelow(m, w.body.position, dims).Normal?
    ensures r.ok && r.state == Falling ==> TileCollisionBelow(m, r.body.position, dims) == Normal(false)
  {
    if !w.ok then Outcome(w.body, dir, Idle, charging, charge, false)
    else
      var o := Charged(w.body, dir, charging, charge, keys.space, dt);
      match TileCollisionBelow(m, w.body.position, dims)
      case Throw => o.(ok := false)
      case Normal(below) =>
        o.(state := if keys.a || keys.d then Walking else if !below then Falling else o.state)
  }

  /** One Idle update on values: both wall checks, then the transitions.
      The player never moves vertically here. */
  function IdleTick(m: Tilemap, dims: Vector, b: Body, dir: Direction, charging: bool, charge: real, keys: Keys, dt: real): (r: Outcome)
    ensures r.body.position.y == b.position.y
  {
    AfterWalls(m, dims, WallChecks(m, dims, b), dir, charging, charge, keys, dt)
  }

  /** The part of `update` after both wall checks have passed, applied in
      place: the entity collisions, the jump charge and the transitions.
      The player dies when a live entity other than itself overlaps it. */
  method Transitions(p: Player, keys: Keys, dt: real, overlapping: set<Entity>) returns (ok: bool)
    requires p.state == Idle
    modifies p, p.entity
    ensures Outcome(Body(p.entity.position, p.velocity), p.direction, p.state, p.isChargingJump, p.jumpCharge, ok)
            == AfterWalls(p.level.tilemap, p.entity.dimensions, Step(Body(old(p.entity.position), old(p.velocity)), true),
                          old(p.direction), old(p.isChargingJump), old(p.jumpCharge), keys, dt)
    ensures p.entity.isDead == (old(p.entity.isDead) || SomeAlive(Colliders(p.level.entities, p.entity, overlapping)))
    ensures old(p.WithinLimit()) ==> p.WithinLimit()
  {
    CollideAndCharge(p, keys, dt, overlapping);
    ok := Settle(p, keys);
  }

  /** The entity collisions, then the jump charge. */
  method CollideAndCharge(p: Player, keys: Keys, dt: real, overlapping: set<Entity>)
    requires p.state == Idle
    modifies p, p.entity
    ensures Outcome(Body(p.entity.position, p.velocity), p.direction, p.state, p.isChargingJump, p.jumpCharge, true)
            == Charged(Body(old(p.entity.position), old(p.velocity)), old(p.direction), old(p.isChargingJump), old(p.jumpCharge), keys.space, dt)
    ensures p.entity.isDead == (old(p.entity.isDead) || SomeAlive(Colliders(p.level.entities, p.entity, overlapping)))
    ensures old(p.WithinLimit()) ==> p.WithinLimit()
  {
    var collided := p.CheckEntityCollisions(overlapping);
    assert p.entity !in collided;
    p.ChargeJump(keys, dt);
  }

  /** The two transition tests at the end of `update`: Falling when nothing
      is below, then Walking when a or d is held. `ok` is false when the
      test below threw, which leaves the state as it was. */
  method Settle(p: Player, keys: Keys) returns (ok: bool)
    modifies p
    ensures var below := TileCollisionBelow(p.level.tilemap, p.entity.position, p.entity.dimensions);
            && ok == below.Normal?
            && p.state == (if below.Throw? then old(p.state)
                           else if keys.a || keys.d then Walking
                           else if !below.value then Falling
                           else old(p.state))
    ensures p.velocity == old(p.velocity) && p.direction == old(p.direction)
    ensures p.jumpCharge == old(p.jumpCharge) && p.isChargingJump == old(p.isChargingJump)
  {
    var below := TileCollisionBelow(p.level.tilemap, p.entity.position, p.entity.dimensions);
    if below.Throw? {
      return false;
    }
    ok := true;
    if !below.value {
      p.ChangeState(Falling, 0.0);
    }
    if keys.a || keys.d {
      p.ChangeState(Walking, 0.0);
    }
  }

  /** One `update`, applied in place: both wall checks, then the rest of
      the update. `ok` is false when a grid read threw, which skips the rest
      of the update; a failed wall check leaves the player alive or dead as
      it was. */
  method Update(p: Player, keys: Keys, dt: real, overlapping: set<Entity>) returns (ok: bool)
    requires p.state == Idle
    modifies p, p.entity
    ensures Outcome(Body(p.entity.position, p.velocity), p.direction, p.state, p.isChargingJump, p.jumpCharge, ok)
            == IdleTick(p.level.tilemap, p.entity.dimensions, Body(old(p.entity.position), old(p.velocity)), old(p.direction),
                        old(p.isChargingJump), old(p.jumpCharge), keys, dt)
    ensures p.entity.isDead == if WallChecks(p.level.tilemap, p.entity.dimensions, Body(old(p.entity.position), old(p.velocity))).ok
                               then old(p.entity.isDead) || SomeAlive(Colliders(p.level.entities, p.entity, overlapping))
                               else old(p.entity.isDead)
    ensures old(p.WithinLimit()) ==> p.WithinLimit()
  {
    ghost var b := Body(p.entity.position, p.velocity);
    ok := p.CheckLeftCollisions();
    if ok {
      ok := p.CheckRightCollisions();
    }
    ghost var w := WallChecks(p.level.tilemap, p.entity.dimensions, b);
    assert Step(Body(p.entity.position, p.velocity), ok) == w;
    if !ok {
      return;
    }
    ok := Transitions(p, keys, dt, overlapping);
  }
}
