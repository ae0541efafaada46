/** The Jumping state of the Mario-7 player
    (src/Mario-7/src/states/entity/PlayerJumpingState.js). Its `enter`, which
    sets the vertical velocity to the jump force, is `Player.ChangeState`. */
module Mario7JumpingState {
  import opened Common
  import opened Enums
  import opened Collision
  import opened Physics
  import opened Mario7Player

  /** One `update`: a non-negative vertical speed switches to Falling without
      ending the update; a head bump stops the rise and switches to Falling;
      otherwise a steers left (with the left wall check), d steers right (with
      the right wall check), and no key brakes; gravity is added last. `ok`
      is false when a grid read threw, which skips the rest of the update. */
  method Update(p: Player, keys: Keys, dt: real) returns (ok: bool)
    requires p.state == Jumping
    modifies p
    ensures var b := Body(old(p.position), old(p.velocity));
            var st := if b.velocity.y >= 0.0 then Falling else Jumping;
            var above := TileCollisionAbove(p.tilemap, b.position, p.dimensions);
            && (above.Throw? ==> !ok && Body(p.position, p.velocity) == b && p.direction == old(p.direction) && p.state == st)
            && (above == Normal(true) ==>
                  ok && p.position == b.position && p.velocity == Vector(b.velocity.x, Gravity * dt)
                  && p.direction == old(p.direction) && p.state == Falling)
            && (above == Normal(false) ==>
                  var s := AirSteer(p.tilemap, p.dimensions, p.velocityLimit.x, SpeedScalar * FrictionScalar, FrictionScalar, b, keys);
                  && ok == s.ok && p.position == s.body.position
                  && p.velocity == (if s.ok then s.body.velocity.(y := s.body.velocity.y + Gravity * dt) else s.body.velocity)
                  && p.direction == (if keys.a then Left else if keys.d then Right else old(p.direction))
                  && p.state == st)
    ensures old(p.WithinLimit()) ==> p.WithinLimit()
  {
    if p.velocity.y >= 0.0 {
      p.ChangeState(Falling);
    }
    var above := TileCollisionAbove(p.tilemap, p.position, p.dimensions);
    if above.Throw? {
      return false;
    }
    if above.value {
      p.velocity := p.velocity.(y := 0.0);
      p.ChangeState(Falling);
    } else {
      ok := p.SteerInAir(keys);
      if !ok {
        return;
      }
    }
    p.AddGravity(dt);
    ok := true;
  }
}
