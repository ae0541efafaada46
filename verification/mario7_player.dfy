/** The player of the Mario-7 build (src/Mario-7/src/entities/Player.js):
    position and velocity updated in place by the movement rules, the wall
    checks and the state machine's `changeState`. */
module Mario7Player {
  import opened Common
  import opened Enums
  import opened Tilemap
  import opened Collision
  import opened Physics

  /** `speedScalar` and `frictionScalar` of this build. */
  const SpeedScalar: real := 5.0
  const FrictionScalar: real := 0.95

  /** The part of the player one state update decides: its motion, the way
      it faces, the state machine's state, and whether the update ran to the
      end (`ok == false`: a grid read threw). */
  datatype Outcome = Outcome(body: Body, direction: Direction, state: PlayerState, ok: bool)

  class Player {
    var position: Vector
    var velocity: Vector
    const dimensions: Vector
    const velocityLimit: Vector
    var direction: Direction
    /** The state machine's current state. */
    var state: PlayerState
    const tilemap: Tilemap

    /** Starts at rest, facing right, in the Falling state. */
    constructor (dimensions: Vector, position: Vector, velocityLimit: Vector, tilemap: Tilemap)
      ensures this.dimensions == dimensions && this.position == position
      ensures this.velocityLimit == velocityLimit && this.tilemap == tilemap
      ensures velocity == Vector(0.0, 0.0) && direction == Right && state == Falling
    {
      this.dimensions := dimensions;
      this.position := position;
      this.velocity := Vector(0.0, 0.0);
      this.velocityLimit := velocityLimit;
      this.direction := Right;
      this.tilemap := tilemap;
      this.state := Falling;
    }

    /** The horizontal speed is within the velocity limit. */
    predicate WithinLimit()
      reads this
    {
      velocityLimit.x >= 0.0 && Abs(velocity.x) <= velocityLimit.x
    }

    /** `changeState(s)`: make s current and run its `enter`; only Jumping's
        `enter` touches the player's motion, setting the vertical velocity to
        the jump force. */
    method ChangeState(s: PlayerState)
      modifies this
      ensures state == s
      ensures position == old(position) && direction == old(direction)
      ensures velocity == if s == Jumping then old(velocity).(y := JumpForce) else old(velocity)
    {
      state := s;
      if s == Jumping {
        velocity := velocity.(y := JumpForce);
      }
    }

    /** `moveLeft`: face left and step the velocity left, never past -limit. */
    method MoveLeft()
      modifies this
      ensures direction == Left && position == old(position) && state == old(state)
      ensures velocity == old(velocity).(x := StepLeft(old(velocity.x), SpeedScalar * FrictionScalar, velocityLimit.x))
      ensures old(WithinLimit()) ==> WithinLimit()
    {
      direction := Left;
      velocity := velocity.(x := Max(velocity.x - SpeedScalar * FrictionScalar, -velocityLimit.x));
    }

    /** `moveRight`: face right and step the velocity right, never past limit. */
    method MoveRight()
      modifies this
      ensures direction == Right && position == old(position) && state == old(state)
      ensures velocity == old(velocity).(x := StepRight(old(velocity.x), SpeedScalar * FrictionScalar, velocityLimit.x))
      ensures old(WithinLimit()) ==> WithinLimit()
    {
      direction := Right;
      velocity := velocity.(x := Min(velocity.x + SpeedScalar * FrictionScalar, velocityLimit.x));
    }

    /** `stop`: friction decay with a snap to exactly 0 below 0.1. */
    method Stop()
      modifies this
      ensures direction == old(direction) && position == old(position) && state == old(state)
      ensures velocity == old(velocity).(x := StopStep(old(velocity.x), FrictionScalar))
      ensures old(WithinLimit()) ==> WithinLimit()
    {
      if Abs(velocity.x) > 0.0 {
        velocity := velocity.(x := velocity.x * FrictionScalar);
      }
      if Abs(velocity.x) < 0.1 {
        velocity := velocity.(x := 0.0);
      }
    }

    /** `checkLeftCollisions`; `ok` is false when a grid read threw. */
    method CheckLeftCollisions() returns (ok: bool)
      modifies this
      ensures Step(Body(position, velocity), ok) == LeftCollisions(tilemap, dimensions, Body(old(position), old(velocity)))
      ensures direction == old(direction) && state == old(state)
      ensures old(WithinLimit()) ==> WithinLimit()
    {
      ghost var before := Body(position, velocity);
      if position.x < 0.0 {
        velocity := velocity.(x := 0.0);
        position := position.(x := 0.0);
      }
      assert Body(position, velocity) == ClampLeft(before);
      var hit := DidCollideWithTiles(tilemap, position, dimensions, [LeftBottom, LeftTop]);
      if hit.Throw? {
        return false;
      }
      if hit.value {
        var found := TilesByDirection(tilemap, position, dimensions, [LeftTop]);
        if found.Throw? {
          return false;
        }
        var tileLeftTop := found.value[0];
        velocity := velocity.(x := 0.0);
        if tileLeftTop.Ref? {
          var t := tileLeftTop.tile;
          position := position.(x := (t.position.x * t.Dimensions().x + t.Dimensions().x - 1) as real);
        }
      }
      ok := true;
    }

    /** `checkRightCollisions`; `ok` is false when a grid read threw. */
    method CheckRightCollisions() returns (ok: bool)
      modifies this
      ensures Step(Body(position, velocity), ok) == RightCollisions(tilemap, dimensions, Body(old(position), old(velocity)))
      ensures direction == old(direction) && state == old(state)
      ensures old(WithinLimit()) ==> WithinLimit()
    {
      ghost var before := Body(position, velocity);
      if position.x > tilemap.canvasDimensions.x as real - dimensions.x {
        velocity := velocity.(x := 0.0);
        position := position.(x := tilemap.canvasDimensions.x as real - dimensions.x);
      }
      assert Body(position, velocity) == ClampRight(tilemap, dimensions, before);
      var hit := DidCollideWithTiles(tilemap, position, dimensions, [RightBottom, RightTop]);
      if hit.Throw? {
        return false;
      }
      if hit.value {
        var found := TilesByDirection(tilemap, position, dimensions, [RightTop]);
        if found.Throw? {
          return false;
        }
        var tileRightTop := found.value[0];
        velocity := velocity.(x := 0.0);
        if tileRightTop.Ref? {
          var t := tileRightTop.tile;
          position := position.(x := (t.position.x * t.Dimensions().x) as real - dimensions.x);
        }
      }
      ok := true;
    }

    /** The steering branch the airborne states share: a steps left and
        runs the left wall check, d steps right and runs the right one, and
        with neither key the player brakes. */
    method SteerInAir(keys: Keys) returns (ok: bool)
      modifies this
      ensures Step(Body(position, velocity), ok) == AirSteer(tilemap, dimensions, velocityLimit.x, SpeedScalar * FrictionScalar, FrictionScalar, Body(old(position), old(velocity)), keys)
      ensures direction == (if keys.a then Left else if keys.d then Right else old(direction))
      ensures state == old(state)
      ensures old(WithinLimit()) ==> WithinLimit()
    {
      if keys.a {
        MoveLeft();
        ok := CheckLeftCollisions();
      } else if keys.d {
        MoveRight();
        ok := CheckRightCollisions();
      } else {
        Stop();
        ok := true;
      }
    }

    /** `position.add(velocity, dt)`. */
    method AddVelocity(dt: real)
      modifies this
      ensures position == Vector(old(position.x + velocity.x * dt), old(position.y + velocity.y * dt))
      ensures velocity == old(velocity) && direction == old(direction) && state == old(state)
    {
      position := Vector(position.x + velocity.x * dt, position.y + velocity.y * dt);
    }

    /** `velocity.add(gravityForce, dt)`. */
    method AddGravity(dt: real)
      modifies this
      ensures velocity == old(velocity).(y := old(velocity.y) + Gravity * dt)
      ensures position == old(position) && direction == old(direction) && state == old(state)
    {
      velocity := velocity.(y := velocity.y + Gravity * dt);
    }

    /** `didCollideWithTiles(dirs)` at the current position. */
    function DidCollide(dirs: seq<Direction>): Completion<bool>
      reads this
    {
      DidCollideWithTiles(tilemap, position, dimensions, dirs)
    }

    /** `getTilesByDirection(dirs)` at the current position. */
    function TilesAt(dirs: seq<Direction>): Completion<seq<Slot>>
      reads this
    {
      TilesByDirection(tilemap, position, dimensions, dirs)
    }
  }
}
