/** The Idle state of the Mario-7 player
    (src/Mario-7/src/states/entity/PlayerIdleState.js). */
module Mario7IdleState {
  import opened Common
  import opened Enums
  import opened Collision
  import opened Physics
  import opened Mario7Player

  /** One `update`: both wall checks, then three independent transition
      tests, so the last one that holds decides the state (a or d over a lost
      footing over space); a Jumping transition overridden later still has
      set the jump velocity. `ok` is false when a grid read threw. */
  method Update(p: Player, keys: Keys) returns (ok: bool)
    requires p.state == Idle
    modifies p
    ensures var w := WallChecks(p.tilemap, p.dimensions, Body(old(p.position), old(p.velocity)));
            var below := TileCollisionBelow(p.tilemap, w.body.position, p.dimensions);
            && (ok <==> w.ok && below.Normal?)
            && p.position == w.body.position
            && p.velocity == (if w.ok && keys.space then w.body.velocity.(y := JumpForce) else w.body.velocity)
            && p.direction == old(p.direction)
            && (ok ==> p.state == if keys.a || keys.d then Walking
                                  else if !below.value then Falling
                                  else if keys.space then Jumping
                                  else Idle)
            && (!ok ==> p.state == if w.ok && keys.space then Jumping else Idle)
    ensures old(p.WithinLimit()) ==> p.WithinLimit()
  {
    ok := p.CheckLeftCollisions();
    if ok {
      ok := p.CheckRightCollisions();
    }
    if !ok {
      return;
    }
    if keys.space {
      p.ChangeState(Jumping);
    }
    var below := TileCollisionBelow(p.tilemap, p.position, p.dimensions);
    if below.Throw? {
      return false;
    }
    if !below.value {
      p.ChangeState(Falling);
    }
    if keys.a || keys.d {
      p.ChangeState(Walking);
    }
  }
}
