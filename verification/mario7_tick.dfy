/** `Player.update` of the Mario-7 build (src/Mario-7/src/entities/Player.js):
    move by the velocity, then run the current state's `update`. */
module Mario7Tick {
  import opened Common
  import opened Enums
  import opened Mario7Player
  import Mario7IdleState
  import Mario7WalkingState
  import Mario7JumpingState
  import Mario7FallingState

  /** The transitions one update can make: Jumping is entered only from the
      ground (Idle or Walking) with space held, a jump can only continue or
      turn into a fall, and a fall ends only by landing in Idle or Walking. */
  predicate Allowed(from: PlayerState, to: PlayerState, keys: Keys)
  {
    && (to == Jumping && from != Jumping ==> keys.space && (from == Idle || from == Walking))
    && (from == Jumping ==> to == Jumping || to == Falling)
    && (from == Falling ==> to != Jumping)
  }

  /** One frame: `position.add(velocity, dt)`, then the state machine's
      update. The horizontal speed stays within the limit and the state
      changes only along the allowed transitions. */
  method Update(p: Player, keys: Keys, dt: real) returns (ok: bool)
    modifies p
    ensures Allowed(old(p.state), p.state, keys)
    ensures old(p.WithinLimit()) ==> p.WithinLimit()
  {
    p.AddVelocity(dt);
    match p.state
    case Idle => ok := Mario7IdleState.Update(p, keys);
    case Walking => ok := Mario7WalkingState.Update(p, keys);
    case Jumping => ok := Mario7JumpingState.Update(p, keys, dt);
    case Falling => ok := Mario7FallingState.Update(p, keys, dt);
  }
}
