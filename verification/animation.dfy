/** The sprite animation frame cycler (src/Mario-4/lib/Animation.js and
    src/Mario-9/lib/Animation.js, which differ only in the default interval).
    The `Timer` it registers its step with is not part of this model: an
    update takes the number of times the timer runs the step during that
    update. */
module Animation {
  /** The interval the Mario-4 constructor uses when none is given. */
  const DefaultInterval: real := 1.0

  /** The frame index after `n` timer steps from frame `c` of a `len`-frame
      animation, one step at a time. */
  function Advanced(c: int, n: nat, len: nat): int
    requires len > 0
  {
    if n == 0 then c else (Advanced(c, n - 1, len) + 1) % len
  }

  /** Stepping `n` and then `m` times is stepping `n + m` times. */
  lemma {:induction false} AdvancedAdds(c: int, n: nat, m: nat, len: nat)
    requires len > 0
    ensures Advanced(Advanced(c, n, len), m, len) == Advanced(c, n + m, len)
  {
    if m > 0 {
      AdvancedAdds(c, n, m - 1, len);
    }
  }

  /** Fewer steps than it takes to pass the last frame move forward one
      frame each. */
  lemma {:induction false} AdvancedCounts(c: int, n: nat, len: nat)
    requires len > 0 && 0 <= c && c + n < len
    ensures Advanced(c, n, len) == c + n
  {
    if n > 0 {
      AdvancedCounts(c, n - 1, len);
      SmallMod(c + n, len);
    }
  }

  /** An index below the length is its own remainder. */
  lemma SmallMod(a: int, len: nat)
    requires 0 <= a < len
    ensures a % len == a
  {
  }

  /** After as many steps as there are frames the animation is back at the
      frame it started from: `len - c` steps reach frame 0 and `c` more
      steps come back to c. */
  lemma FullCycle(c: int, len: nat)
    requires len > 0 && 0 <= c < len
    ensures Advanced(c, len, len) == c
  {
    var toLast := len - 1 - c;
    AdvancedCounts(c, toLast, len);
    assert Advanced(c, toLast + 1, len) == 0;
    AdvancedAdds(c, toLast + 1, c, len);
    if c > 0 {
      AdvancedCounts(0, c, len);
    }
  }

  class Animation {
    /** The sprite indexes to cycle through. */
    const frames: seq<int>
    /** How often, in seconds, the timer runs the step. */
    const interval: real
    var currentFrame: int

    predicate Valid()
      reads this
    {
      0 <= currentFrame < |frames|
    }

    /** `new Animation(frames, interval)`: start on the first frame and
        register the step with the timer. */
    constructor (frames: seq<int>, interval: real)
      requires |frames| > 0
      ensures this.frames == frames && this.interval == interval
      ensures currentFrame == 0 && Valid()
    {
      this.frames := frames;
      this.interval := interval;
      currentFrame := 0;
    }

    /** `new Animation(frames)` in the Mario-4 build: the interval defaults
        to one second. */
    constructor Default(frames: seq<int>)
      requires |frames| > 0
      ensures this.frames == frames && interval == DefaultInterval
      ensures currentFrame == 0 && Valid()
    {
      this.frames := frames;
      interval := DefaultInterval;
      currentFrame := 0;
    }

    /** The step `startTimer` registers: move to the next frame, wrapping
        after the last one. The `max(0, ...)` never changes a frame index. */
    method Step()
      requires Valid()
      modifies this
      ensures currentFrame == Advanced(old(currentFrame), 1, |frames|)
      ensures Valid()
    {
      var next := (currentFrame + 1) % |frames|;
      currentFrame := if next < 0 then 0 else next;
    }

    /** `update(dt)`: a single-frame animation returns before the timer
        runs; otherwise the timer runs the step `fired` times. */
    method Update(fired: nat)
      requires Valid()
      modifies this
      ensures currentFrame == Advanced(old(currentFrame), if |frames| == 1 then 0 else fired, |frames|)
      ensures |frames| == 1 ==> currentFrame == old(currentFrame)
      ensures Valid()
    {
      if |frames| == 1 {
        return;
      }
      ghost var start := currentFrame;
      var i := 0;
      while i < fired
        invariant 0 <= i <= fired
        invariant currentFrame == Advanced(start, i, |frames|)
        invariant Valid()
      {
        Step();
        i := i + 1;
      }
    }

    /** `getCurrentFrame`: the sprite index of the current frame, one of
        the animation's frames. */
    function CurrentFrame(): (r: int)
      reads this
      requires Valid()
      ensures r in frames
    {
      frames[currentFrame]
    }
  }
}
