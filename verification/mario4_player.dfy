/** The player of the Mario-4 build (src/Mario-4/src/entities/Player.js):
    no state machine yet; `update` handles movement, then the jump, then
    moves the player and steps the current animation. Tile.js of this build
    is not part of this model: its `SIZE` is taken to be 16, as in the
    other builds, and the map is reduced to its canvas width. */
module Mario4Player {
  import opened Common
  import opened Enums
  import opened Collision
  import opened Physics
  import Animation

  /** `speedScalar` and `frictionScalar` of this build. */
  const SpeedScalar: real := 5.0
  const FrictionScalar: real := 0.95
  /** `LevelMaker.GROUND_HEIGHT * Tile.SIZE`. */
  const GroundTop: real := 14.0 * 16.0

  /** The sprite frames and interval of the three animations. */
  const IdleFrames: seq<int> := [0]
  const MovingFrames: seq<int> := [9, 10]
  const MovingInterval: real := 0.2
  const JumpFrames: seq<int> := [2]

  /** Which of the three animations is current. */
  datatype Pose = Still | Moving | Airborne

  /** The part of the player one update decides. */
  datatype Motion = Motion(body: Body, direction: Direction, pose: Pose)

  /** `handleMovement` on values: both canvas clamps, then a steps left,
      else d steps right, else the player slows down. Stepping shows the
      moving animation; slowing down shows the idle one exactly when the
      speed snaps to 0. */
  function MovementTick(b: Body, right: real, limit: real, dir: Direction, pose: Pose, keys: Keys): (r: Motion)
    ensures r.body.position == CanvasWalls(b, right).position && r.body.velocity.y == b.velocity.y
    ensures keys.a ==> r.direction == Left && r.pose == Moving
    ensures keys.a ==> r.body.velocity.x == StepLeft(CanvasWalls(b, right).velocity.x, SpeedScalar * FrictionScalar, limit)
    ensures !keys.a && keys.d ==> r.direction == Right && r.pose == Moving
    ensures !keys.a && keys.d ==> r.body.velocity.x == StepRight(CanvasWalls(b, right).velocity.x, SpeedScalar * FrictionScalar, limit)
    ensures !keys.a && !keys.d ==> r.body.velocity.x == StopStep(CanvasWalls(b, right).velocity.x, FrictionScalar)
    ensures !keys.a && !keys.d ==> r.direction == dir && (r.pose == Still <==> r.body.velocity.x == 0.0 || pose == Still)
    ensures !keys.a && !keys.d ==> r.pose == Still || r.pose == pose
    ensures 0.0 <= limit && Abs(b.velocity.x) <= limit ==> Abs(r.body.velocity.x) <= limit
  {
    var w := CanvasWalls(b, right);
    var vx := w.velocity.x;
    if keys.a then Motion(w.(velocity := w.velocity.(x := StepLeft(vx, SpeedScalar * FrictionScalar, limit))), Left, Moving)
    else if keys.d then Motion(w.(velocity := w.velocity.(x := StepRight(vx, SpeedScalar * FrictionScalar, limit))), Right, Moving)
    else
      var v := StopStep(vx, FrictionScalar);
      Motion(w.(velocity := w.velocity.(x := v)), dir, if v == 0.0 then Still else pose)
  }

  /** `handleJump` on values, with `ground` the player's `groundHeight`:
      jump when space is held and the player stands exactly on the ground;
      while the vertical speed is not 0, add gravity and show the jump
      animation; a player below the ground is put back on it, stopped
      vertically, and shown idle. */
  function JumpTick(b: Body, ground: real, dir: Direction, pose: Pose, space: bool, dt: real): (r: Motion)
    ensures r.direction == dir && r.body.position.y <= ground
    ensures r.body.position.x == b.position.x && r.body.velocity.x == b.velocity.x
    ensures b.position.y > ground ==> r.body.position.y == ground && r.body.velocity.y == 0.0 && r.pose == Still
    ensures b.position.y <= ground ==> r.body.position.y == b.position.y
    ensures b.position.y == ground && space ==> r.body.velocity.y == JumpForce + Gravity * dt && r.pose == Airborne
    ensures b.position.y < ground || (b.position.y == ground && !space) ==>
              r.body.velocity.y == (if b.velocity.y != 0.0 then b.velocity.y + Gravity * dt else 0.0)
              && r.pose == (if b.velocity.y != 0.0 then Airborne else pose)
  {
    var vy := if space && b.position.y == ground then JumpForce else b.velocity.y;
    var airborne := Abs(vy) > 0.0;
    var vy2 := if airborne then vy + Gravity * dt else vy;
    var pose2 := if airborne then Airborne else pose;
    if b.position.y > ground then Motion(Body(b.position.(y := ground), b.velocity.(y := 0.0)), dir, Still)
    else Motion(b.(velocity := b.velocity.(y := vy2)), dir, pose2)
  }

  /** `handleMovement` then `handleJump` on values: where the player stands
      and how fast it moves just before `update` moves it. It never starts
      the move below the ground or outside the canvas. */
  function Handled(b: Body, right: real, limit: real, ground: real, dir: Direction, pose: Pose, keys: Keys, dt: real): (r: Motion)
    ensures r.body.position.y <= ground
    ensures 0.0 <= right ==> 0.0 <= r.body.position.x <= right
    ensures 0.0 <= limit && Abs(b.velocity.x) <= limit ==> Abs(r.body.velocity.x) <= limit
    ensures keys.a ==> r.direction == Left
    ensures !keys.a && keys.d ==> r.direction == Right
  {
    var m := MovementTick(b, right, limit, dir, pose, keys);
    JumpTick(m.body, ground, m.direction, m.pose, keys.space, dt)
  }

  /** One `update` on values: the two handlers, then the move by velocity
      times dt. */
  function Tick(b: Body, right: real, limit: real, ground: real, dir: Direction, pose: Pose, keys: Keys, dt: real): Motion
  {
    var h := Handled(b, right, limit, ground, dir, pose, keys, dt);
    h.(body := Moved(h.body, dt))
  }

  class Player {
    var position: Vector
    var velocity: Vector
    const dimensions: Vector
    const velocityLimit: Vector
    /** The y at which the player stands on the ground. */
    const groundHeight: real
    /** `map.canvasDimensions.x`. */
    const canvasWidth: real
    var direction: Direction
    const idleAnimation: Animation.Animation
    const movingAnimation: Animation.Animation
    const jumpAnimation: Animation.Animation
    var currentAnimation: Animation.Animation

    /** The three animations are distinct, have the frames the constructor
        gives them, and one of them is current. */
    predicate Valid()
      reads this, idleAnimation, movingAnimation, jumpAnimation
    {
      && idleAnimation != movingAnimation && idleAnimation != jumpAnimation && movingAnimation != jumpAnimation
      && idleAnimation.frames == IdleFrames && movingAnimation.frames == MovingFrames && jumpAnimation.frames == JumpFrames
      && idleAnimation.Valid() && movingAnimation.Valid() && jumpAnimation.Valid()
      && (currentAnimation == idleAnimation || currentAnimation == movingAnimation || currentAnimation == jumpAnimation)
    }

    /** Which animation is current. */
    function CurrentPose(): Pose
      reads this
    {
      if currentAnimation == idleAnimation then Still
      else if currentAnimation == movingAnimation then Moving
      else Airborne
    }

    /** The animation shown for a pose. */
    function AnimationOf(pose: Pose): Animation.Animation
      reads this
    {
      match pose
      case Still => idleAnimation
      case Moving => movingAnimation
      case Airborne => jumpAnimation
    }

    /** Starts at rest, facing right, with its feet on the ground row and the
        idle animation current. */
    constructor (dimensions: Vector, position: Vector, velocityLimit: Vector, canvasWidth: real)
      ensures this.dimensions == dimensions && this.position == position
      ensures this.velocityLimit == velocityLimit && this.canvasWidth == canvasWidth
      ensures velocity == Vector(0.0, 0.0) && direction == Right
      ensures groundHeight + dimensions.y == GroundTop
      ensures Valid() && CurrentPose() == Still
      ensures idleAnimation.interval == Animation.DefaultInterval && movingAnimation.interval == MovingInterval
      ensures jumpAnimation.interval == Animation.DefaultInterval
      ensures idleAnimation.currentFrame == 0 && movingAnimation.currentFrame == 0 && jumpAnimation.currentFrame == 0
    {
      this.dimensions := dimensions;
      this.position := position;
      this.velocity := Vector(0.0, 0.0);
      this.velocityLimit := velocityLimit;
      this.groundHeight := GroundTop - dimensions.y;
      this.canvasWidth := canvasWidth;
      this.direction := Right;
      var idle := new Animation.Animation.Default(IdleFrames);
      var moving := new Animation.Animation(MovingFrames, MovingInterval);
      var jump := new Animation.Animation.Default(JumpFrames);
      this.idleAnimation := idle;
      this.movingAnimation := moving;
      this.jumpAnimation := jump;
      this.currentAnimation := idle;
    }

    /** How far right the player's left edge may go. */
    function RightEdge(): real
      reads this
    {
      canvasWidth - dimensions.x
    }

    /** The horizontal speed is within the velocity limit. */
    predicate WithinLimit()
      reads this
    {
      velocityLimit.x >= 0.0 && Abs(velocity.x) <= velocityLimit.x
    }

    /** `moveLeft`: face left, show the moving animation, and step the
        velocity left, never past -limit. */
    method MoveLeft()
      modifies this
      ensures direction == Left && position == old(position) && currentAnimation == movingAnimation
      ensures velocity == old(velocity).(x := StepLeft(old(velocity.x), SpeedScalar * FrictionScalar, velocityLimit.x))
    {
      direction := Left;
      currentAnimation := movingAnimation;
      velocity := velocity.(x := Max(velocity.x - SpeedScalar * FrictionScalar, -velocityLimit.x));
    }

    /** `moveRight`: face right, show the moving animation, and step the
        velocity right, never past limit. */
    method MoveRight()
      modifies this
      ensures direction == Right && position == old(position) && currentAnimation == movingAnimation
      ensures velocity == old(velocity).(x := StepRight(old(velocity.x), SpeedScalar * FrictionScalar, velocityLimit.x))
    {
      direction := Right;
      currentAnimation := movingAnimation;
      velocity := velocity.(x := Min(velocity.x + SpeedScalar * FrictionScalar, velocityLimit.x));
    }

    /** `stop`: friction decay; below 0.1 the speed snaps to 0 and the idle
        animation is shown. */
    method Stop()
      modifies this
      ensures direction == old(direction) && position == old(position)
      ensures velocity == old(velocity).(x := StopStep(old(velocity.x), FrictionScalar))
      ensures currentAnimation == if velocity.x == 0.0 then idleAnimation else old(currentAnimation)
    {
      if Abs(velocity.x) > 0.0 {
        velocity := velocity.(x := velocity.x * FrictionScalar);
      }
      if Abs(velocity.x) < 0.1 {
        currentAnimation := idleAnimation;
        velocity := velocity.(x := 0.0);
      }
    }

    /** `checkLeftCollisions` then `checkRightCollisions`: the canvas edges
        only. */
    method CheckWalls()
      modifies this
      ensures Body(position, velocity) == CanvasWalls(Body(old(position), old(velocity)), RightEdge())
      ensures direction == old(direction) && currentAnimation == old(currentAnimation)
    {
      if position.x < 0.0 {
        velocity := velocity.(x := 0.0);
        position := position.(x := 0.0);
      }
      if position.x > canvasWidth - dimensions.x {
        velocity := velocity.(x := 0.0);
        position := position.(x := canvasWidth - dimensions.x);
      }
    }

    /** `handleMovement(dt)`, applied in place. */
    method HandleMovement(keys: Keys)
      requires Valid()
      modifies this
      ensures Valid()
      ensures Motion(Body(position, velocity), direction, CurrentPose())
              == MovementTick(Body(old(position), old(velocity)), RightEdge(), velocityLimit.x, old(direction), old(CurrentPose()), keys)
    {
      CheckWalls();
      if keys.a {
        MoveLeft();
      } else if keys.d {
        MoveRight();
      } else {
        Stop();
      }
    }

    /** `handleJump(dt)`, applied in place, with `jump()` inlined. */
    method HandleJump(keys: Keys, dt: real)
      requires Valid()
      modifies this
      ensures Valid()
      ensures Motion(Body(position, velocity), direction, CurrentPose())
              == JumpTick(Body(old(position), old(velocity)), groundHeight, old(direction), old(CurrentPose()), keys.space, dt)
    {
      if keys.space && position.y == groundHeight {
        velocity := velocity.(y := JumpForce);
      }
      if Abs(velocity.y) > 0.0 {
        velocity := velocity.(y := velocity.y + Gravity * dt);
        currentAnimation := jumpAnimation;
      }
      if position.y > groundHeight {
        position := position.(y := groundHeight);
        velocity := velocity.(y := 0.0);
        currentAnimation := idleAnimation;
      }
    }

    /** The two handlers `update` starts with. */
    method Handle(keys: Keys, dt: real)
      requires Valid()
      modifies this
      ensures Valid()
      ensures Motion(Body(position, velocity), direction, CurrentPose())
              == Handled(Body(old(position), old(velocity)), RightEdge(), velocityLimit.x, groundHeight, old(direction), old(CurrentPose()), keys, dt)
    {
      HandleMovement(keys);
      HandleJump(keys, dt);
    }

    /** `update(dt)`, applied in place: the animation's timer runs its step
        `fired` times during the update. Only the animation that is current
        after the jump moves on; the other two keep their frame. */
    method Update(keys: Keys, dt: real, fired: nat)
      requires Valid()
      modifies this, idleAnimation, movingAnimation, jumpAnimation
      ensures Valid()
      ensures Motion(Body(position, velocity), direction, CurrentPose())
              == Tick(Body(old(position), old(velocity)), RightEdge(), velocityLimit.x, groundHeight, old(direction), old(CurrentPose()), keys, dt)
      ensures var a := currentAnimation;
              a.currentFrame == Animation.Advanced(old(a.currentFrame), if |a.frames| == 1 then 0 else fired, |a.frames|)
      ensures forall q :: q in {idleAnimation, movingAnimation, jumpAnimation} && q != currentAnimation ==>
                q.currentFrame == old(q.currentFrame)
    {
      ghost var right := RightEdge();
      ghost var b := Body(position, velocity);
      ghost var pose := CurrentPose();
      Handle(keys, dt);
      ghost var h := Motion(Body(position, velocity), direction, CurrentPose());
      assert h == Handled(b, right, velocityLimit.x, groundHeight, old(direction), pose, keys, dt);
      position := Moved(Body(position, velocity), dt).position;
      ghost var t := h.(body := Moved(h.body, dt));
      assert t == Tick(b, right, velocityLimit.x, groundHeight, old(direction), pose, keys, dt);
      currentAnimation.Update(fired);
      assert t == Motion(Body(position, velocity), direction, CurrentPose());
    }
  }
}
