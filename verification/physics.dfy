/** The horizontal velocity rules shared by every player build: `moveLeft`,
    `moveRight` and `stop` (src/Mario-7/src/entities/Player.js:112-130 and the
    same methods in Mario-4, Mario-5 and Mario-8), and the gravity step. */
module Physics {
  import opened Common

  /** `gravityForce.y`: added as `1000 * dt` to the vertical velocity. */
  const Gravity: real := 1000.0
  /** `jumpForce.y`. */
  const JumpForce: real := -325.0
  /** Below this speed `stop` snaps the horizontal velocity to zero. */
  const RestThreshold: real := 0.1

  /** `position.add(velocity, dt)`. */
  function Moved(b: Body, dt: real): Body
  {
    b.(position := Vector(b.position.x + b.velocity.x * dt, b.position.y + b.velocity.y * dt))
  }

  /** `moveLeft`: `max(vx - speed * friction, -limit)`. The result is the
      larger of the stepped speed and `-limit`, and a velocity already within
      the limit stays within it. */
  function StepLeft(vx: real, delta: real, limit: real): (r: real)
    ensures r >= -limit && r >= vx - delta
    ensures r == vx - delta || r == -limit
    ensures delta >= 0.0 && -limit <= vx <= limit ==> -limit <= r <= limit && r <= vx
  {
    Max(vx - delta, -limit)
  }

  /** `moveRight`: `min(vx + speed * friction, limit)`: the smaller of the
      stepped speed and `limit`. */
  function StepRight(vx: real, delta: real, limit: real): (r: real)
    ensures r <= limit && r <= vx + delta
    ensures r == vx + delta || r == limit
    ensures delta >= 0.0 && -limit <= vx <= limit ==> -limit <= r <= limit && r >= vx
  {
    Min(vx + delta, limit)
  }

  /** `stop`: scale a moving velocity by the friction factor, then snap
      anything slower than 0.1 to exactly 0. */
  function StopStep(vx: real, friction: real): (r: real)
    requires 0.0 <= friction <= 1.0
    ensures Abs(r) <= Abs(vx)
    ensures r == 0.0 || (r < 0.0 <==> vx < 0.0)
    ensures r == 0.0 || Abs(r) >= RestThreshold
    ensures Abs(vx) < RestThreshold ==> r == 0.0
    ensures Abs(vx * friction) >= RestThreshold ==> r == vx * friction
    ensures Abs(vx * friction) < RestThreshold ==> r == 0.0
  {
    var v := if Abs(vx) > 0.0 then vx * friction else vx;
    ScaleShrinks(vx, friction);
    if Abs(v) < RestThreshold then 0.0 else v
  }

  lemma ScaleShrinks(v: real, f: real)
    requires 0.0 <= f <= 1.0
    ensures Abs(v * f) == Abs(v) * f <= Abs(v)
    ensures v * f == 0.0 || (v * f < 0.0 <==> v < 0.0)
  {
    if v >= 0.0 {
      assert v * f <= v * 1.0;
    } else {
      assert (-v) * f <= (-v) * 1.0;
    }
  }

  lemma MulMono(a: real, b: real, c: real)
    requires a <= b && c >= 0.0
    ensures a * c <= b * c
  {
  }

  /** `n` consecutive calls to `stop`, as a player receives with no input. */
  function StopSteps(vx: real, friction: real, n: nat): real
    requires 0.0 <= friction <= 1.0
    decreases n
  {
    if n == 0 then vx else StopSteps(StopStep(vx, friction), friction, n - 1)
  }

  /** Zero is a fixed point of `stop`. */
  lemma {:induction false} StopStepsAtRest(friction: real, n: nat)
    requires 0.0 <= friction <= 1.0
    ensures StopSteps(0.0, friction, n) == 0.0
  {
    if n > 0 {
      StopStepsAtRest(friction, n - 1);
    }
  }

  /** One `stop` that does not snap to 0 (the braked speed is still at least
      0.1) removes at least `(1 - friction) * 0.1` from the speed. */
  lemma StopStepGain(vx: real, friction: real)
    requires 0.0 <= friction < 1.0
    requires Abs(vx * friction) >= RestThreshold
    ensures Abs(StopStep(vx, friction)) <= Abs(vx) - (1.0 - friction) * RestThreshold
  {
    ScaleShrinks(vx, friction);
    assert Abs(vx) * friction == Abs(vx) - Abs(vx) * (1.0 - friction);
    MulMono(RestThreshold, Abs(vx), 1.0 - friction);
  }

  /** With a friction factor below 1, releasing the keys brings the player to
      rest: each `stop` removes at least `(1 - friction) * 0.1` from a speed of
      at least 0.1, so a speed below `0.1 + k * (1 - friction) * 0.1` is
      exactly 0 after `k + 1` calls. */
  lemma {:induction false} StopReachesRest(vx: real, friction: real, k: nat)
    requires 0.0 <= friction < 1.0
    requires Abs(vx) < RestThreshold + k as real * ((1.0 - friction) * RestThreshold)
    ensures StopSteps(vx, friction, k + 1) == 0.0
    decreases k
  {
    var next := StopStep(vx, friction);
    if Abs(vx) < RestThreshold {
      assert next == 0.0;
      StopStepsAtRest(friction, k);
    } else if next == 0.0 {
      StopStepsAtRest(friction, k);
    } else {
      var s := (1.0 - friction) * RestThreshold;
      StopStepGain(vx, friction);
      assert k != 0;
      assert k as real * s == (k - 1) as real * s + s;
      StopReachesRest(next, friction, k - 1);
    }
  }
}
