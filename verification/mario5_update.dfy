/** `update(dt)` of the Mario-5 player (src/Mario-5/src/entities/Player.js):
    the wall checks and the move, then the state machine's step. Only the
    Idle and Walking states of this build are part of this model; in the
    other two the step is left out. */
module Mario5Update {
  import opened Common
  import opened Enums
  import opened Collision
  import opened Physics
  import opened Mario5Player
  import Mario5IdleState
  import Mario5WalkingState

  /** One whole update on values. The vertical speed is never touched; a
      player that is Idle or Walking ends the update inside the canvas,
      since those states check the walls again after the move. */
  function Tick(b: Body, right: real, limit: real, dir: Direction, st: PlayerState, keys: Keys, dt: real): (r: Outcome)
    ensures r.body.velocity.y == b.velocity.y
    ensures (st == Idle || st == Walking) && 0.0 <= right ==> 0.0 <= r.body.position.x <= right
    ensures st == Idle ==> r.state == (if keys.a || keys.d then Walking else if keys.space then Jumping else Idle)
    ensures st == Jumping || st == Falling ==> r == Outcome(Moved(CanvasWalls(b, right), dt), dir, st)
    ensures 0.0 <= limit && Abs(b.velocity.x) <= limit ==> Abs(r.body.velocity.x) <= limit
  {
    var m := Moved(CanvasWalls(b, right), dt);
    match st
    case Idle => Mario5IdleState.IdleTick(m, right, dir, keys)
    case Walking => Mario5WalkingState.WalkTick(m, right, limit, dir, keys)
    case _ => Outcome(m, dir, st)
  }

  /** `update(dt)`, applied in place. */
  method Update(p: Player, keys: Keys, dt: real)
    modifies p
    ensures Outcome(Body(p.position, p.velocity), p.direction, p.state)
            == Tick(Body(old(p.position), old(p.velocity)), p.RightEdge(), p.velocityLimit.x, old(p.direction), old(p.state), keys, dt)
    ensures old(p.WithinLimit()) ==> p.WithinLimit()
  {
    p.Move(dt);
    if p.state == Idle {
      Mario5IdleState.Update(p, keys);
    } else if p.state == Walking {
      Mario5WalkingState.Update(p, keys);
    }
  }
}
