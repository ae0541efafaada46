/** The Idle state of the Mario-5 player
    (src/Mario-5/src/states/entity/PlayerIdleState.js). */
module Mario5IdleState {
  import opened Common
  import opened Enums
  import opened Collision
  import opened Physics
  import opened Mario5Player

  /** One Idle update on values: both wall checks; space asks for Jumping;
      a or d asks for Walking, which overrides that jump; with neither a nor
      d the player slows down. */
  function IdleTick(b: Body, right: real, dir: Direction, keys: Keys): (r: Outcome)
    ensures r.direction == dir
    ensures r.state == (if keys.a || keys.d then Walking else if keys.space then Jumping else Idle)
    ensures r.body.position == CanvasWalls(b, right).position && r.body.velocity.y == b.velocity.y
    ensures keys.a || keys.d ==> r.body == CanvasWalls(b, right)
    ensures !keys.a && !keys.d ==> Abs(r.body.velocity.x) <= Abs(b.velocity.x)
    ensures !keys.a && !keys.d ==> r.body.velocity.x == StopStep(CanvasWalls(b, right).velocity.x, FrictionScalar)
    ensures !keys.a && !keys.d && Abs(CanvasWalls(b, right).velocity.x) < RestThreshold ==> r.body.velocity.x == 0.0
  {
    var w := CanvasWalls(b, right);
    var s1 := if keys.space then Jumping else Idle;
    if keys.a || keys.d then Outcome(w, dir, Walking)
    else Outcome(w.(velocity := w.velocity.(x := StopStep(w.velocity.x, FrictionScalar))), dir, s1)
  }

  /** One `update`, applied in place. */
  method Update(p: Player, keys: Keys)
    requires p.state == Idle
    modifies p
    ensures Outcome(Body(p.position, p.velocity), p.direction, p.state)
            == IdleTick(Body(old(p.position), old(p.velocity)), p.RightEdge(), old(p.direction), keys)
    ensures old(p.WithinLimit()) ==> p.WithinLimit()
  {
    p.CheckWalls();
    if keys.space {
      p.ChangeState(Jumping);
    }
    if keys.a || keys.d {
      p.ChangeState(Walking);
    } else {
      p.Stop();
    }
  }
}
