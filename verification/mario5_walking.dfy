/** The Walking state of the Mario-5 player
    (src/Mario-5/src/states/entity/PlayerWalkingState.js). This build has
    no fall test: the ground is flat. */
module Mario5WalkingState {
  import opened Common
  import opened Enums
  import opened Collision
  import opened Physics
  import opened Mario5Player

  /** One Walking update on values: both wall checks; with no key held and
      the horizontal speed exactly 0, back to Idle; otherwise space asks for
      Jumping; otherwise a steps left, else d steps right, else the player
      slows down. */
  function WalkTick(b: Body, right: real, limit: real, dir: Direction, keys: Keys): (r: Outcome)
    ensures r.body.position == CanvasWalls(b, right).position && r.body.velocity.y == b.velocity.y
    ensures r.state == Idle <==> !keys.a && !keys.d && CanvasWalls(b, right).velocity.x == 0.0
    ensures r.state == Jumping <==> keys.space && (keys.a || keys.d || CanvasWalls(b, right).velocity.x != 0.0)
    ensures r.state == Walking ==> r.direction == (if keys.a then Left else if keys.d then Right else dir)
    ensures r.state == Walking && keys.a ==>
              r.body.velocity.x == StepLeft(CanvasWalls(b, right).velocity.x, SpeedScalar * FrictionScalar, limit)
    ensures r.state == Walking && !keys.a && keys.d ==>
              r.body.velocity.x == StepRight(CanvasWalls(b, right).velocity.x, SpeedScalar * FrictionScalar, limit)
    ensures r.state == Walking && !keys.a && !keys.d ==>
              r.body.velocity.x == StopStep(CanvasWalls(b, right).velocity.x, FrictionScalar)
    ensures r.state != Walking ==> r.body == CanvasWalls(b, right) && r.direction == dir
    ensures 0.0 <= limit && Abs(b.velocity.x) <= limit ==> Abs(r.body.velocity.x) <= limit
  {
    var w := CanvasWalls(b, right);
    var vx := w.velocity.x;
    if !keys.a && !keys.d && Abs(vx) == 0.0 then Outcome(w, dir, Idle)
    else if keys.space then Outcome(w, dir, Jumping)
    else if keys.a then Outcome(w.(velocity := w.velocity.(x := StepLeft(vx, SpeedScalar * FrictionScalar, limit))), Left, Walking)
    else if keys.d then Outcome(w.(velocity := w.velocity.(x := StepRight(vx, SpeedScalar * FrictionScalar, limit))), Right, Walking)
    else Outcome(w.(velocity := w.velocity.(x := StopStep(vx, FrictionScalar))), dir, Walking)
  }

  /** One `update`, applied in place. */
  method Update(p: Player, keys: Keys)
    requires p.state == Walking
    modifies p
    ensures Outcome(Body(p.position, p.velocity), p.direction, p.state)
            == WalkTick(Body(old(p.position), old(p.velocity)), p.RightEdge(), p.velocityLimit.x, old(p.direction), keys)
    ensures old(p.WithinLimit()) ==> p.WithinLimit()
  {
    p.CheckWalls();
    if !keys.a && !keys.d && Abs(p.velocity.x) == 0.0 {
      p.ChangeState(Idle);
    } else if keys.space {
      p.ChangeState(Jumping);
    } else if keys.a {
      p.MoveLeft();
    } else if keys.d {
      p.MoveRight();
    } else {
      p.Stop();
    }
  }
}
