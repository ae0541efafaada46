/** The Walking state of the Mario-7 player
    (src/Mario-7/src/states/entity/PlayerWalkingState.js). */
module Mario7WalkingState {
  import opened Common
  import opened Enums
  import opened Collision
  import opened Physics
  import opened Mario7Player

  /** One `update`: both wall checks, then exactly one of an Idle, Falling or
      Jumping transition, `moveLeft`, `moveRight` or `stop`, in that order of
      priority. Idle needs no key and a horizontal speed of exactly 0; the
      footing test runs only when that does not hold. `ok` is false when a
      grid read threw. */
  method Update(p: Player, keys: Keys) returns (ok: bool)
    requires p.state == Walking
    modifies p
    ensures var w := WallChecks(p.tilemap, p.dimensions, Body(old(p.position), old(p.velocity)));
            var v := w.body.velocity;
            var rests := !keys.a && !keys.d && Abs(v.x) == 0.0;
            var below := TileCollisionBelow(p.tilemap, w.body.position, p.dimensions);
            && (ok <==> w.ok && (rests || below.Normal?))
            && p.position == w.body.position
            && (!ok ==> p.velocity == v && p.direction == old(p.direction) && p.state == Walking)
            && (ok && rests ==> p.velocity == v && p.direction == old(p.direction) && p.state == Idle)
            && (ok && !rests && !below.value ==> p.velocity == v && p.direction == old(p.direction) && p.state == Falling)
            && (ok && !rests && below.value && keys.space ==>
                  p.velocity == v.(y := JumpForce) && p.direction == old(p.direction) && p.state == Jumping)
            && (ok && !rests && below.value && !keys.space && keys.a ==>
                  p.velocity == v.(x := StepLeft(v.x, SpeedScalar * FrictionScalar, p.velocityLimit.x))
                  && p.direction == Left && p.state == Walking)
            && (ok && !rests && below.value && !keys.space && !keys.a && keys.d ==>
                  p.velocity == v.(x := StepRight(v.x, SpeedScalar * FrictionScalar, p.velocityLimit.x))
                  && p.direction == Right && p.state == Walking)
            && (ok && !rests && below.value && !keys.space && !keys.a && !keys.d ==>
                  p.velocity == v.(x := StopStep(v.x, FrictionScalar))
                  && p.direction == old(p.direction) && p.state == Walking)
    ensures old(p.WithinLimit()) ==> p.WithinLimit()
  {
    ok := p.CheckLeftCollisions();
    if ok {
      ok := p.CheckRightCollisions();
    }
    if !ok {
      return;
    }
    if !keys.a && !keys.d && Abs(p.velocity.x) == 0.0 {
      p.ChangeState(Idle);
      return;
    }
    var below := TileCollisionBelow(p.tilemap, p.position, p.dimensions);
    if below.Throw? {
      return false;
    }
    if !below.value {
      p.ChangeState(Falling);
    } else if keys.space {
      p.ChangeState(Jumping);
    } else if keys.a {
      p.MoveLeft();
    } else if keys.d {
      p.MoveRight();
    } else {
      p.Stop();
    }
  }
}
