/** Value types shared by every build of the game: optional values, JavaScript
    completions (a normal result or a thrown exception), 2-D vectors and the
    keyboard snapshot the states read. */
module Common {

  datatype Option<+T> = None | Some(value: T)

  /** The outcome of evaluating a JavaScript expression: a value, or a thrown
      TypeError (reading a property of `undefined`). */
  datatype Completion<+T> = Normal(value: T) | Throw

  /** A point or a velocity in pixels (per second). */
  datatype Vector = Vector(x: real, y: real)

  /** The part of a player the movement rules change: where it is and how
      fast it moves. */
  datatype Body = Body(position: Vector, velocity: Vector)

  /** An integer pair: grid sizes and grid coordinates. */
  datatype Dim = Dim(x: int, y: int)

  /** The keys the player states poll during one tick: `keys.a`, `keys.d`
      and `keys[' ']`. */
  datatype Keys = Keys(a: bool, d: bool, space: bool)

  function Abs(r: real): real { if r < 0.0 then -r else r }

  function Max(a: real, b: real): real { if a < b then b else a }

  function Min(a: real, b: real): real { if a < b then a else b }

  /** `array.filter(x => keep(x))`: the elements of `s` that pass, in their
      original order. */
  function Filter<T(==)>(s: seq<T>, keep: set<T>): (r: seq<T>)
    ensures |r| <= |s|
    ensures forall i :: 0 <= i < |r| ==> r[i] in s && r[i] in keep
    ensures forall i :: 0 <= i < |s| && s[i] in keep ==> s[i] in r
  {
    if s == [] then [] else (if s[0] in keep then [s[0]] else []) + Filter(s[1..], keep)
  }

  /** Filtering works piecewise, so it keeps the order of the elements it
      keeps. */
  lemma {:induction false} FilterAppend<T>(a: seq<T>, b: seq<T>, keep: set<T>)
    ensures Filter(a + b, keep) == Filter(a, keep) + Filter(b, keep)
  {
    if a != [] {
      assert (a + b)[0] == a[0];
      assert (a + b)[1..] == a[1..] + b;
      FilterAppend(a[1..], b, keep);
    } else {
      assert a + b == b;
    }
  }
}
