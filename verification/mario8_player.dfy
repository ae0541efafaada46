/** The player of the Mario-8 build (src/Mario-8/src/entities/Player.js):
    the Mario-7 movement rules with a friction factor of 0.9, a charged
    jump, and death by touching a live entity of the level. The player's
    Entity part (position, size, `isDead`, `cleanUp`) is the `entity`
    object, which is what the level's entity list holds. */
module Mario8Player {
  import opened Common
  import opened Enums
  import opened Tilemap
  import opened Collision
  import opened Physics
  import opened Entities
  import opened Mario8Level

  /** `speedScalar` and `frictionScalar` of this build. */
  const SpeedScalar: real := 5.0
  const FrictionScalar: real := 0.9
  /** `jumpChargeMax`: the charge at which the jump fires by itself. */
  const JumpChargeMax: real := 0.1
  /** The charge is passed to the Jumping state multiplied by this. */
  const ChargeScale: real := 10.0

  /** The jump-charge fields after one `chargeJump`, and the multiplier
      handed to the Jumping state when the jump fires. */
  datatype Charge = Charge(charging: bool, charge: real, fired: Option<real>)

  /** `chargeJump(dt)`: holding space starts charging; while charging and
      below the maximum the charge grows by dt; releasing space while
      charging, or reaching the maximum, fires the jump with ten times the
      charge and resets both fields. */
  function ChargeStep(charging: bool, charge: real, space: bool, dt: real): (r: Charge)
    ensures !space && charging ==>
              r.fired == Some((if charge < JumpChargeMax then charge + dt else charge) * ChargeScale)
    ensures (charging || space) && charge < JumpChargeMax && charge + dt >= JumpChargeMax ==>
              r.fired == Some((charge + dt) * ChargeScale)
    ensures charge >= JumpChargeMax ==> r.fired == Some(charge * ChargeScale)
    ensures space && charge < JumpChargeMax && charge + dt < JumpChargeMax ==> r == Charge(true, charge + dt, None)
    ensures !space && !charging && charge < JumpChargeMax ==> r == Charge(false, charge, None)
    ensures r.fired.Some? ==> !r.charging && r.charge == 0.0
    ensures r.fired.None? ==> r.charging == (charging || space)
    ensures 0.0 <= charge < JumpChargeMax && 0.0 <= dt ==> 0.0 <= r.charge < JumpChargeMax
    ensures 0.0 <= charge < JumpChargeMax && 0.0 <= dt && r.fired.Some? ==>
              0.0 <= r.fired.value < (JumpChargeMax + dt) * ChargeScale
  {
    var c1 := charging || space;
    var q := if c1 && charge < JumpChargeMax then charge + dt else charge;
    if (!space && c1) || q >= JumpChargeMax then Charge(false, 0.0, Some(q * ChargeScale))
    else Charge(c1, q, None)
  }

  /** The entities `checkEntityCollisions` hands to `onCollision`, in list
      order: every entity other than the player itself that overlaps it. */
  function Colliders(es: seq<Entity>, self: Entity, overlapping: set<Entity>): (r: seq<Entity>)
    ensures |r| <= |es|
    ensures forall i :: 0 <= i < |r| ==> r[i] != self && r[i] in overlapping && r[i] in es
    ensures forall i :: 0 <= i < |es| && es[i] != self && es[i] in overlapping ==> es[i] in r
  {
    Filter(es, overlapping - {self})
  }

  /** The part of the player one state update decides, apart from the
      `isDead` flag: its motion, the way it faces, the state machine's state,
      the jump-charge fields, and whether the update ran to the end
      (`ok == false`: a grid read threw). */
  datatype Outcome = Outcome(body: Body, direction: Direction, state: PlayerState, charging: bool, charge: real, ok: bool)

  /** Some entity of `es` is alive. */
  predicate SomeAlive(es: seq<Entity>)
    reads set e | e in es
  {
    exists i :: 0 <= i < |es| && !es[i].isDead
  }

  lemma SomeAliveAppend(es: seq<Entity>, e: Entity)
    ensures SomeAlive(es + [e]) == (SomeAlive(es) || !e.isDead)
  {
    if !e.isDead {
      assert (es + [e])[|es|] == e;
    }
    if SomeAlive(es) {
      var i :| 0 <= i < |es| && !es[i].isDead;
      assert (es + [e])[i] == es[i];
    }
  }

  class Player {
    /** The Entity part: position, size and the `isDead` and `cleanUp` flags. */
    const entity: Entity
    var velocity: Vector
    const velocityLimit: Vector
    var direction: Direction
    /** The state machine's current state. */
    var state: PlayerState
    const level: Level
    var jumpCharge: real
    var isChargingJump: bool

    /** Starts at rest, alive, with no jump charge, in the Falling state.
        The Entity constructor is not part of this model; it is taken to
        store the size, position and speed limit and to start at rest,
        facing right. */
    constructor (dimensions: Vector, position: Vector, velocityLimit: Vector, level: Level)
      ensures fresh(entity)
      ensures entity.dimensions == dimensions && entity.position == position
      ensures !entity.isDead && !entity.cleanUp
      ensures this.velocityLimit == velocityLimit && this.level == level
      ensures velocity == Vector(0.0, 0.0) && direction == Right && state == Falling
      ensures jumpCharge == 0.0 && !isChargingJump
    {
      entity := new Entity(dimensions, position);
      velocity := Vector(0.0, 0.0);
      this.velocityLimit := velocityLimit;
      direction := Right;
      this.level := level;
      jumpCharge := 0.0;
      isChargingJump := false;
      state := Falling;
    }

    /** The horizontal speed is within the velocity limit. */
    predicate WithinLimit()
      reads this
    {
      velocityLimit.x >= 0.0 && Abs(velocity.x) <= velocityLimit.x
    }

    /** `changeState(s, parameters)`: make s current and run its `enter`;
        only Jumping's `enter` touches the motion, setting the vertical
        velocity to the jump force times the charge multiplier it is given. */
    method ChangeState(s: PlayerState, jumpMultiplier: real)
      modifies this
      ensures state == s && direction == old(direction)
      ensures velocity == if s == Jumping then old(velocity).(y := JumpForce * jumpMultiplier) else old(velocity)
      ensures jumpCharge == old(jumpCharge) && isChargingJump == old(isChargingJump)
    {
      state := s;
      if s == Jumping {
        velocity := velocity.(y := JumpForce * jumpMultiplier);
      }
    }

    /** `moveLeft`: face left and step the velocity left by 4.5, never past
        -limit. */
    method MoveLeft()
      modifies this
      ensures direction == Left && state == old(state)
      ensures velocity == old(velocity).(x := StepLeft(old(velocity.x), SpeedScalar * FrictionScalar, velocityLimit.x))
      ensures jumpCharge == old(jumpCharge) && isChargingJump == old(isChargingJump)
      ensures old(WithinLimit()) ==> WithinLimit()
    {
      direction := Left;
      velocity := velocity.(x := Max(velocity.x - SpeedScalar * FrictionScalar, -velocityLimit.x));
    }

    /** `moveRight`: face right and step the velocity right by 4.5, never
        past limit. */
    method MoveRight()
      modifies this
      ensures direction == Right && state == old(state)
      ensures velocity == old(velocity).(x := StepRight(old(velocity.x), SpeedScalar * FrictionScalar, velocityLimit.x))
      ensures jumpCharge == old(jumpCharge) && isChargingJump == old(isChargingJump)
      ensures old(WithinLimit()) ==> WithinLimit()
    {
      direction := Right;
      velocity := velocity.(x := Min(velocity.x + SpeedScalar * FrictionScalar, velocityLimit.x));
    }

    /** `stop`: friction decay by 0.9 with a snap to exactly 0 below 0.1. */
    method Stop()
      modifies this
      ensures direction == old(direction) && state == old(state)
      ensures velocity == old(velocity).(x := StopStep(old(velocity.x), FrictionScalar))
      ensures jumpCharge == old(jumpCharge) && isChargingJump == old(isChargingJump)
      ensures old(WithinLimit()) ==> WithinLimit()
    {
      if Abs(velocity.x) > 0.0 {
        velocity := velocity.(x := velocity.x * FrictionScalar);
      }
      if Abs(velocity.x) < 0.1 {
        velocity := velocity.(x := 0.0);
      }
    }

    /** `checkLeftCollisions` against the level's tile map; `ok` is false
        when a grid read threw. */
    method CheckLeftCollisions() returns (ok: bool)
      modifies this, entity
      ensures Step(Body(entity.position, velocity), ok) == LeftCollisions(level.tilemap, entity.dimensions, Body(old(entity.position), old(velocity)))
      ensures direction == old(direction) && state == old(state)
      ensures jumpCharge == old(jumpCharge) && isChargingJump == old(isChargingJump)
      ensures entity.isDead == old(entity.isDead) && entity.cleanUp == old(entity.cleanUp)
      ensures old(WithinLimit()) ==> WithinLimit()
    {
      ghost var before := Body(entity.position, velocity);
      if entity.position.x < 0.0 {
        velocity := velocity.(x := 0.0);
        entity.position := entity.position.(x := 0.0);
      }
      assert Body(entity.position, velocity) == ClampLeft(before);
      var hit := DidCollideWithTiles(level.tilemap, entity.position, entity.dimensions, [LeftBottom, LeftTop]);
      if hit.Throw? {
        return false;
      }
      if hit.value {
        var found := TilesByDirection(level.tilemap, entity.position, entity.dimensions, [LeftTop]);
        if found.Throw? {
          return false;
        }
        var tileLeftTop := found.value[0];
        velocity := velocity.(x := 0.0);
        if tileLeftTop.Ref? {
          var t := tileLeftTop.tile;
          entity.position := entity.position.(x := (t.position.x * t.Dimensions().x + t.Dimensions().x - 1) as real);
        }
      }
      ok := true;
    }

    /** `checkRightCollisions` against the level's tile map; `ok` is false
        when a grid read threw. */
    method CheckRightCollisions() returns (ok: bool)
      modifies this, entity
      ensures Step(Body(entity.position, velocity), ok) == RightCollisions(level.tilemap, entity.dimensions, Body(old(entity.position), old(velocity)))
      ensures direction == old(direction) && state == old(state)
      ensures jumpCharge == old(jumpCharge) && isChargingJump == old(isChargingJump)
      ensures entity.isDead == old(entity.isDead) && entity.cleanUp == old(entity.cleanUp)
      ensures old(WithinLimit()) ==> WithinLimit()
    {
      ghost var before := Body(entity.position, velocity);
      var m := level.tilemap;
      if entity.position.x > m.canvasDimensions.x as real - entity.dimensions.x {
        velocity := velocity.(x := 0.0);
        entity.position := entity.position.(x := m.canvasDimensions.x as real - entity.dimensions.x);
      }
      assert Body(entity.position, velocity) == ClampRight(m, entity.dimensions, before);
      var hit := DidCollideWithTiles(m, entity.position, entity.dimensions, [RightBottom, RightTop]);
      if hit.Throw? {
        return false;
      }
      if hit.value {
        var found := TilesByDirection(m, entity.position, entity.dimensions, [RightTop]);
        if found.Throw? {
          return false;
        }
        var tileRightTop := found.value[0];
        velocity := velocity.(x := 0.0);
        if tileRightTop.Ref? {
          var t := tileRightTop.tile;
          entity.position := entity.position.(x := (t.position.x * t.Dimensions().x) as real - entity.dimensions.x);
        }
      }
      ok := true;
    }

    /** The steering branch of the airborne states: a steps left and runs
        the left wall check, d steps right and runs the right one, and with
        neither key the player brakes. */
    method SteerInAir(keys: Keys) returns (ok: bool)
      modifies this, entity
      ensures Step(Body(entity.position, velocity), ok)
              == AirSteer(level.tilemap, entity.dimensions, velocityLimit.x, SpeedScalar * FrictionScalar, FrictionScalar,
                          Body(old(entity.position), old(velocity)), keys)
      ensures direction == (if keys.a then Left else if keys.d then Right else old(direction))
      ensures state == old(state)
      ensures jumpCharge == old(jumpCharge) && isChargingJump == old(isChargingJump)
      ensures entity.isDead == old(entity.isDead) && entity.cleanUp == old(entity.cleanUp)
      ensures old(WithinLimit()) ==> WithinLimit()
    {
      if keys.a {
        MoveLeft();
        ok := CheckLeftCollisions();
      } else if keys.d {
        MoveRight();
        ok := CheckRightCollisions();
      } else {
        Stop();
        ok := true;
      }
    }

    /** `velocity.add(gravityForce, dt)`. */
    method AddGravity(dt: real)
      modifies this
      ensures velocity == old(velocity).(y := old(velocity.y) + Gravity * dt)
      ensures direction == old(direction) && state == old(state)
      ensures jumpCharge == old(jumpCharge) && isChargingJump == old(isChargingJump)
    {
      velocity := velocity.(y := velocity.y + Gravity * dt);
    }

    /** `onEntityCollision(other)`: touching a live entity kills the player;
        touching a dead one does nothing. The flag is never cleared. */
    method OnEntityCollision(other: Entity)
      modifies entity
      ensures entity.isDead == (old(entity.isDead) || !old(other.isDead))
      ensures entity.position == old(entity.position) && entity.cleanUp == old(entity.cleanUp)
    {
      if !other.isDead {
        entity.isDead := true;
      }
    }

    /** `checkEntityCollisions()` with its default callback: walk the
        level's entities in order, skip the player itself, and run
        `onEntityCollision` on each one that overlaps the player (is in
        `overlapping`); `collided` lists them in the order they were handled.
        The player dies when one of them is alive (only the player's own
        flag changes, so theirs are as they were before the call). */
    method CheckEntityCollisions(overlapping: set<Entity>) returns (collided: seq<Entity>)
      modifies entity
      ensures collided == Colliders(level.entities, entity, overlapping)
      ensures entity.isDead == (old(entity.isDead) || SomeAlive(collided))
      ensures entity.position == old(entity.position) && entity.cleanUp == old(entity.cleanUp)
    {
      var es := level.entities;
      ghost var keep := overlapping - {entity};
      collided := [];
      var i := 0;
      while i < |es|
        invariant 0 <= i <= |es|
        invariant collided == Filter(es[..i], keep)
        invariant entity.isDead == (old(entity.isDead) || SomeAlive(collided))
        invariant forall k :: 0 <= k < |collided| ==> collided[k] != entity
        invariant entity.position == old(entity.position) && entity.cleanUp == old(entity.cleanUp)
      {
        var e := es[i];
        FilterAppend(es[..i], [e], keep);
        assert es[..i + 1] == es[..i] + [e];
        assert Filter([e], keep) == if e in keep then [e] else [];
        if e != entity && e in overlapping {
          SomeAliveAppend(collided, e);
          OnEntityCollision(e);
          collided := collided + [e];
        }
        i := i + 1;
      }
      assert es[..i] == es;
    }

    /** `chargeJump(dt)`, firing the jump through `changeState`. */
    method ChargeJump(keys: Keys, dt: real)
      modifies this
      ensures var c := ChargeStep(old(isChargingJump), old(jumpCharge), keys.space, dt);
              && isChargingJump == c.charging && jumpCharge == c.charge
              && state == (if c.fired.Some? then Jumping else old(state))
              && velocity == (if c.fired.Some? then old(velocity).(y := JumpForce * c.fired.value) else old(velocity))
              && direction == old(direction)
    {
      if keys.space {
        isChargingJump := true;
      }
      if isChargingJump && jumpCharge < JumpChargeMax {
        jumpCharge := jumpCharge + dt;
      }
      if (!keys.space && isChargingJump) || jumpCharge >= JumpChargeMax {
        ChangeState(Jumping, jumpCharge * ChargeScale);
        jumpCharge := 0.0;
        isChargingJump := false;
      }
    }
  }
}
