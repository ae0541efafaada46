/** The player of the Mario-5 build (src/Mario-5/src/entities/Player.js):
    no tile collisions yet, only the canvas edges; the ground is a fixed
    height. Tile.js and LevelMaker.js of this build are not part of this
    model: their `TILE_SIZE` and `GROUND_HEIGHT` are taken to be 16 and 14,
    as in the other builds, and the map is reduced to its canvas width. */
module Mario5Player {
  import opened Common
  import opened Enums
  import opened Collision
  import opened Physics

  /** `speedScalar` and `frictionScalar` of this build. */
  const SpeedScalar: real := 5.0
  const FrictionScalar: real := 0.95
  /** `LevelMaker.GROUND_HEIGHT * Tile.TILE_SIZE`: the pixel row where the
      ground starts. */
  const GroundTop: real := 14.0 * 16.0

  /** The part of the player one state update decides. */
  datatype Outcome = Outcome(body: Body, direction: Direction, state: PlayerState)

  class Player {
    var position: Vector
    var velocity: Vector
    const dimensions: Vector
    const velocityLimit: Vector
    /** The y at which the player stands on the ground. */
    const groundHeight: real
    /** `map.canvasDimensions.x`. */
    const canvasWidth: real
    var direction: Direction
    /** The state machine's current state. */
    var state: PlayerState

    /** Starts at rest, facing right, with its feet on the ground row. The
        state machine's first state is set by the game, not here; `state`
        starts as Idle. */
    constructor (dimensions: Vector, position: Vector, velocityLimit: Vector, canvasWidth: real)
      ensures this.dimensions == dimensions && this.position == position
      ensures this.velocityLimit == velocityLimit && this.canvasWidth == canvasWidth
      ensures velocity == Vector(0.0, 0.0) && direction == Right && state == Idle
      ensures groundHeight + dimensions.y == GroundTop
    {
      this.dimensions := dimensions;
      this.position := position;
      this.velocity := Vector(0.0, 0.0);
      this.velocityLimit := velocityLimit;
      this.groundHeight := GroundTop - dimensions.y;
      this.canvasWidth := canvasWidth;
      this.direction := Right;
      this.state := Idle;
    }

    /** How far right the player's left edge may go. */
    function RightEdge(): real
      reads this
    {
      canvasWidth - dimensions.x
    }

    /** The horizontal speed is within the velocity limit. */
    predicate WithinLimit()
      reads this
    {
      velocityLimit.x >= 0.0 && Abs(velocity.x) <= velocityLimit.x
    }

    /** `changeState(s)`: only the current state changes here; the `enter`
        methods of this build's Jumping and Falling states are not part of
        this model. */
    method ChangeState(s: PlayerState)
      modifies this
      ensures state == s
      ensures position == old(position) && velocity == old(velocity) && direction == old(direction)
    {
      state := s;
    }

    /** `moveLeft`: face left and step the velocity left, never past -limit. */
    method MoveLeft()
      modifies this
      ensures direction == Left && position == old(position) && state == old(state)
      ensures velocity == old(velocity).(x := StepLeft(old(velocity.x), SpeedScalar * FrictionScalar, velocityLimit.x))
      ensures old(WithinLimit()) ==> WithinLimit()
    {
      direction := Left;
      velocity := velocity.(x := Max(velocity.x - SpeedScalar * FrictionScalar, -velocityLimit.x));
    }

    /** `moveRight`: face right and step the velocity right, never past limit. */
    method MoveRight()
      modifies this
      ensures direction == Right && position == old(position) && state == old(state)
      ensures velocity == old(velocity).(x := StepRight(old(velocity.x), SpeedScalar * FrictionScalar, velocityLimit.x))
      ensures old(WithinLimit()) ==> WithinLimit()
    {
      direction := Right;
      velocity := velocity.(x := Min(velocity.x + SpeedScalar * FrictionScalar, velocityLimit.x));
    }

    /** `stop`: friction decay with a snap to exactly 0 below 0.1. */
    method Stop()
      modifies this
      ensures direction == old(direction) && position == old(position) && state == old(state)
      ensures velocity == old(velocity).(x := StopStep(old(velocity.x), FrictionScalar))
      ensures old(WithinLimit()) ==> WithinLimit()
    {
      if Abs(velocity.x) > 0.0 {
        velocity := velocity.(x := velocity.x * FrictionScalar);
      }
      if Abs(velocity.x) < 0.1 {
        velocity := velocity.(x := 0.0);
      }
    }

    /** `checkLeftCollisions`: the canvas's left edge only. */
    method CheckLeftCollisions()
      modifies this
      ensures Body(position, velocity) == ClampLeft(Body(old(position), old(velocity)))
      ensures direction == old(direction) && state == old(state)
      ensures old(WithinLimit()) ==> WithinLimit()
    {
      if position.x < 0.0 {
        velocity := velocity.(x := 0.0);
        position := position.(x := 0.0);
      }
    }

    /** `checkRightCollisions`: the canvas's right edge only. */
    method CheckRightCollisions()
      modifies this
      ensures Body(position, velocity) == ClampRightAt(Body(old(position), old(velocity)), RightEdge())
      ensures direction == old(direction) && state == old(state)
      ensures old(WithinLimit()) ==> WithinLimit()
    {
      if position.x > canvasWidth - dimensions.x {
        velocity := velocity.(x := 0.0);
        position := position.(x := canvasWidth - dimensions.x);
      }
    }

    /** Both wall checks, as every state's `update` starts. */
    method CheckWalls()
      modifies this
      ensures Body(position, velocity) == CanvasWalls(Body(old(position), old(velocity)), RightEdge())
      ensures direction == old(direction) && state == old(state)
      ensures old(WithinLimit()) ==> WithinLimit()
    {
      CheckLeftCollisions();
      CheckRightCollisions();
    }

    /** `velocity.add(gravityForce, dt)`. */
    method AddGravity(dt: real)
      modifies this
      ensures velocity == old(velocity).(y := old(velocity.y) + Gravity * dt)
      ensures position == old(position) && direction == old(direction) && state == old(state)
    {
      velocity := velocity.(y := velocity.y + Gravity * dt);
    }

    /** `update(dt)` up to the state machine's step: both wall checks, then
        the move by velocity times dt. The player ends inside the canvas
        before it moves. */
    method Move(dt: real)
      modifies this
      ensures Body(position, velocity) == Moved(CanvasWalls(Body(old(position), old(velocity)), RightEdge()), dt)
      ensures direction == old(direction) && state == old(state)
      ensures old(WithinLimit()) ==> WithinLimit()
    {
      CheckWalls();
      position := Vector(position.x + velocity.x * dt, position.y + velocity.y * dt);
    }
  }
}
