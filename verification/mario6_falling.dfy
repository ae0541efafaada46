/** The Falling state of the Mario-6 build
    (src/Mario-6/src/states/entity/PlayerFallingState.js): the ground is
    flat, at the player's `groundHeight`. The Mario-6 player class is not
    part of this model; the state runs on the Mario-5 player, whose fields
    and movement rules it uses. */
module Mario6FallingState {
  import opened Common
  import opened Enums
  import opened Collision
  import opened Physics
  import opened Mario5Player

  /** One Falling update on values, with `ground` the player's
      `groundHeight`: gravity first; a player below the ground is put on it,
      stopped vertically and switched to Idle, without steering; otherwise
      a steps left and checks the left wall, else d steps right and checks
      the right wall, else the player slows down. */
  function FallTick(b: Body, right: real, limit: real, ground: real, dir: Direction, keys: Keys, dt: real): (r: Outcome)
    ensures r.body.position.y <= ground
    ensures r.state == Idle <==> b.position.y > ground
    ensures r.state != Idle ==> r.state == Falling
    ensures b.position.y > ground ==>
              r.body == Body(b.position.(y := ground), Vector(b.velocity.x, 0.0)) && r.direction == dir
    ensures b.position.y <= ground ==>
              r.body.position.y == b.position.y && r.body.velocity.y == b.velocity.y + Gravity * dt
    ensures b.position.y <= ground && keys.a ==> r.direction == Left && r.body.position.x >= 0.0
    ensures b.position.y <= ground && keys.a ==>
              r.body.velocity.x == (if b.position.x < 0.0 then 0.0 else StepLeft(b.velocity.x, SpeedScalar * FrictionScalar, limit))
    ensures b.position.y <= ground && !keys.a && keys.d ==> r.direction == Right && r.body.position.x <= right
    ensures b.position.y <= ground && !keys.a && keys.d ==>
              r.body.velocity.x == (if b.position.x > right then 0.0 else StepRight(b.velocity.x, SpeedScalar * FrictionScalar, limit))
    ensures b.position.y <= ground && !keys.a && !keys.d ==>
              r.direction == dir && r.body.velocity.x == StopStep(b.velocity.x, FrictionScalar)
    ensures b.position.y <= ground && keys.a ==> r.body.position.x == (if b.position.x < 0.0 then 0.0 else b.position.x)
    ensures b.position.y <= ground && !keys.a && keys.d ==>
              r.body.position.x == (if b.position.x > right then right else b.position.x)
    ensures b.position.y <= ground && !keys.a && !keys.d ==> r.body.position == b.position
    ensures 0.0 <= limit && Abs(b.velocity.x) <= limit ==> Abs(r.body.velocity.x) <= limit
  {
    var g := b.(velocity := b.velocity.(y := b.velocity.y + Gravity * dt));
    var vx := g.velocity.x;
    if g.position.y > ground then
      Outcome(Body(g.position.(y := ground), g.velocity.(y := 0.0)), dir, Idle)
    else if keys.a then
      Outcome(ClampLeft(g.(velocity := g.velocity.(x := StepLeft(vx, SpeedScalar * FrictionScalar, limit)))), Left, Falling)
    else if keys.d then
      Outcome(ClampRightAt(g.(velocity := g.velocity.(x := StepRight(vx, SpeedScalar * FrictionScalar, limit))), right), Right, Falling)
    else
      Outcome(g.(velocity := g.velocity.(x := StopStep(vx, FrictionScalar))), dir, Falling)
  }

  /** One `update(dt)`, applied in place. */
  method Update(p: Player, keys: Keys, dt: real)
    requires p.state == Falling
    modifies p
    ensures Outcome(Body(p.position, p.velocity), p.direction, p.state)
            == FallTick(Body(old(p.position), old(p.velocity)), p.RightEdge(), p.velocityLimit.x, p.groundHeight, old(p.direction), keys, dt)
    ensures old(p.WithinLimit()) ==> p.WithinLimit()
  {
    p.AddGravity(dt);
    if p.position.y > p.groundHeight {
      p.position := p.position.(y := p.groundHeight);
      p.velocity := p.velocity.(y := 0.0);
      p.ChangeState(Idle);
    } else if keys.a {
      p.MoveLeft();
      p.CheckLeftCollisions();
    } else if keys.d {
      p.MoveRight();
      p.CheckRightCollisions();
    } else {
      p.Stop();
    }
  }
}
