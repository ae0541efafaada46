/** The Falling state of the Mario-7 player
    (src/Mario-7/src/states/entity/PlayerFallingState.js): gravity, landing
    on a ledge, wrapping back to the top after falling off the screen, and
    steering in the air. */
module Mario7FallingState {
  import opened Common
  import opened Enums
  import opened Tile
  import opened Tilemap
  import opened Collision
  import opened Physics
  import opened Mario7Player

  /** `CANVAS_HEIGHT` of the game's globals (a 576 x 288 canvas). */
  const CanvasHeight: real := 288.0

  /** The common shape of the two ledge tests: both probes find tiles, the
      lower one is collidable and the upper one is not. */
  function Ledge(m: Tilemap, pos: Vector, dims: Vector, lower: Direction, upper: Direction): (r: Completion<bool>)
    ensures r.Normal? <==> Probe(m, pos, dims, lower).Normal? && Probe(m, pos, dims, upper).Normal?
    ensures r.Normal? ==>
              (r.value <==> var l := Probe(m, pos, dims, lower).value; var u := Probe(m, pos, dims, upper).value;
                            l.Ref? && u.Ref? && l.tile.IsCollidable() && !u.tile.IsCollidable())
  {
    var dirs := [lower, upper];
    assert dirs[0] == lower && dirs[1] == upper;
    match TilesByDirection(m, pos, dims, dirs)
    case Throw => Throw
    case Normal(tiles) =>
      var exist := forall k :: 0 <= k < |tiles| ==> tiles[k].Exists();
      assert exist <==> tiles[0].Exists() && tiles[1].Exists();
      Normal(exist && tiles[0].tile.IsCollidable() && !tiles[1].tile.IsCollidable())
  }

  /** `isTileCollisionBelowRight`: a ledge under the right edge. */
  function TileCollisionBelowRight(m: Tilemap, pos: Vector, dims: Vector): (r: Completion<bool>)
    ensures r.Normal? <==> Probe(m, pos, dims, RightBottom).Normal? && Probe(m, pos, dims, RightTop).Normal?
    ensures r.Normal? ==>
              (r.value <==> Blocks(m, pos, dims, RightBottom) && Probe(m, pos, dims, RightTop).value.Ref?
                            && !Blocks(m, pos, dims, RightTop))
  {
    Ledge(m, pos, dims, RightBottom, RightTop)
  }

  /** `isTileCollisionBelowLeft`: a ledge under the left edge. */
  function TileCollisionBelowLeft(m: Tilemap, pos: Vector, dims: Vector): (r: Completion<bool>)
    ensures r.Normal? <==> Probe(m, pos, dims, LeftBottom).Normal? && Probe(m, pos, dims, LeftTop).Normal?
    ensures r.Normal? ==>
              (r.value <==> Blocks(m, pos, dims, LeftBottom) && Probe(m, pos, dims, LeftTop).value.Ref?
                            && !Blocks(m, pos, dims, LeftTop))
  {
    Ledge(m, pos, dims, LeftBottom, LeftTop)
  }

  /** The landing test of `update`: the right ledge test, then, only when it
      is false, the left one (JavaScript's short-circuit `||`). */
  function LandingTest(m: Tilemap, pos: Vector, dims: Vector): (r: Completion<bool>)
    ensures r == Normal(true) <==>
              TileCollisionBelowRight(m, pos, dims) == Normal(true)
              || (TileCollisionBelowRight(m, pos, dims) == Normal(false) && TileCollisionBelowLeft(m, pos, dims) == Normal(true))
    ensures r.Throw? <==>
              TileCollisionBelowRight(m, pos, dims).Throw?
              || (TileCollisionBelowRight(m, pos, dims) == Normal(false) && TileCollisionBelowLeft(m, pos, dims).Throw?)
  {
    match TileCollisionBelowRight(m, pos, dims)
    case Throw => Throw
    case Normal(right) => if right then Normal(true) else TileCollisionBelowLeft(m, pos, dims)
  }

  /** The motion part of `resolveCollision`: when the BottomRight probe finds
      a tile, stand on it (the box's bottom edge on the tile's top edge) and
      stop falling; with no tile there, nothing moves. */
  function Landed(m: Tilemap, dims: Vector, b: Body): (r: Completion<Body>)
    ensures r.Normal? <==> Probe(m, b.position, dims, BottomRight).Normal?
    ensures r.Normal? ==> r.value.position.x == b.position.x && r.value.velocity.x == b.velocity.x
    ensures r.Normal? && Probe(m, b.position, dims, BottomRight).value.Ref? ==>
              var t := Probe(m, b.position, dims, BottomRight).value.tile;
              && r.value.position.y == (t.position.y * TileSize) as real - dims.y
              && r.value.velocity.y == 0.0
    ensures r.Normal? && !Probe(m, b.position, dims, BottomRight).value.Ref? ==> r.value == b
  {
    var dirs := [BottomRight];
    assert dirs[0] == BottomRight;
    match TilesByDirection(m, b.position, dims, dirs)
    case Throw => Throw
    case Normal(found) =>
      if found[0].Ref? then
        var t := found[0].tile;
        var landed := Body(b.position.(y := (t.position.y * t.Dimensions().x) as real - dims.y), b.velocity.(y := 0.0));
        Normal(landed)
      else Normal(b)
  }

  /** After a landing the BottomRight probe (the pixel just under the box)
      lies in the top row of pixels of the tile landed on. */
  lemma LandingTouchesTileTop(m: Tilemap, dims: Vector, b: Body)
    requires Probe(m, b.position, dims, BottomRight).Normal? && Probe(m, b.position, dims, BottomRight).value.Ref?
    ensures var t := Probe(m, b.position, dims, BottomRight).value.tile;
            var y := ProbePoint(BottomRight, Landed(m, dims, b).value.position, dims).y;
            && y == (t.position.y * TileSize) as real
            && CellIndex(y) == t.position.y
  {
    var t := Probe(m, b.position, dims, BottomRight).value.tile;
    CellIndexExact(t.position.y);
  }

  /** `resolveCollision`: land (see `Landed`), then walk on if a or d is
      held or the player still moves sideways, else stand. */
  method ResolveCollision(p: Player, keys: Keys) returns (ok: bool)
    modifies p
    ensures var l := Landed(p.tilemap, p.dimensions, Body(old(p.position), old(p.velocity)));
            && (ok <==> l.Normal?)
            && Body(p.position, p.velocity) == (if ok then l.value else Body(old(p.position), old(p.velocity)))
            && p.direction == old(p.direction)
            && p.state == (if !ok then old(p.state)
                           else if keys.a || keys.d || Abs(old(p.velocity.x)) > 0.0 then Walking
                           else Idle)
    ensures old(p.WithinLimit()) ==> p.WithinLimit()
  {
    var found := p.TilesAt([BottomRight]);
    if found.Throw? {
      return false;
    }
    var tileBottomRight := found.value[0];
    if tileBottomRight.Ref? {
      var t := tileBottomRight.tile;
      p.position := p.position.(y := (t.position.y * t.Dimensions().x) as real - p.dimensions.y);
      p.velocity := p.velocity.(y := 0.0);
    }
    if keys.a || keys.d || Abs(p.velocity.x) > 0.0 {
      p.ChangeState(Walking);
    } else {
      p.ChangeState(Idle);
    }
    ok := true;
  }

  /** What one `update` of the Falling state does to the player: gravity
      first; then exactly one of landing (see `Landed`, then Walking when a
      or d is held or the player still moves sideways, else Idle), wrapping
      to y = 0 below the canvas, or steering in the air. */
  function FallingTick(m: Tilemap, dims: Vector, limit: real, b: Body, dir: Direction, keys: Keys, dt: real): (r: Outcome)
    ensures r.state != Falling ==>
              && r.ok && LandingTest(m, b.position, dims) == Normal(true)
              && r.body.position.x == b.position.x && r.body.velocity.x == b.velocity.x
              && r.direction == dir
              && (r.state == Idle <==> !keys.a && !keys.d && b.velocity.x == 0.0)
    ensures r.state == Falling && r.ok ==> r.body.velocity.y == b.velocity.y + Gravity * dt
    ensures r.state != Jumping
    ensures var g := Body(b.position, b.velocity.(y := b.velocity.y + Gravity * dt));
            LandingTest(m, b.position, dims) == Normal(true) && Probe(m, b.position, dims, BottomRight).Normal? ==>
              r.ok && r.state != Falling && r.body == Landed(m, dims, g).value
    ensures LandingTest(m, b.position, dims) == Normal(false) && b.position.y > CanvasHeight ==>
              r == Outcome(Body(b.position.(y := 0.0), b.velocity.(y := b.velocity.y + Gravity * dt)), dir, Falling, true)
    ensures 0.0 <= limit && Abs(b.velocity.x) <= limit ==> Abs(r.body.velocity.x) <= limit
  {
    AfterGravity(m, dims, limit, b.(velocity := b.velocity.(y := b.velocity.y + Gravity * dt)), dir, keys)
  }

  /** The Falling update once gravity has given `g`. A landing test that
      throws stops the update with nothing changed. One that holds lands the
      player on the BottomRight tile and leaves Falling for Walking or Idle.
      One that fails wraps a player below the canvas to the top, and
      otherwise steers in the air, keeping the vertical motion. The update
      never enters Jumping. */
  function AfterGravity(m: Tilemap, dims: Vector, limit: real, g: Body, dir: Direction, keys: Keys): (r: Outcome)
    ensures r.state != Jumping
    ensures r.state != Falling ==> r.ok && LandingTest(m, g.position, dims) == Normal(true) && r.direction == dir
    ensures LandingTest(m, g.position, dims).Throw? ==> r == Outcome(g, dir, Falling, false)
    ensures LandingTest(m, g.position, dims) == Normal(true) ==>
              && r.direction == dir
              && (r.ok <==> Landed(m, dims, g).Normal?)
              && (r.ok ==> r.body == Landed(m, dims, g).value && r.state != Falling
                           && (r.state == Idle <==> !keys.a && !keys.d && g.velocity.x == 0.0))
              && (!r.ok ==> r == Outcome(g, dir, Falling, false))
    ensures LandingTest(m, g.position, dims) == Normal(false) && g.position.y > CanvasHeight ==>
              r == Outcome(Body(g.position.(y := 0.0), g.velocity), dir, Falling, true)
    ensures LandingTest(m, g.position, dims) == Normal(false) && g.position.y <= CanvasHeight ==>
              && r.state == Falling
              && r.direction == (if keys.a then Left else if keys.d then Right else dir)
              && r.body.position.y == g.position.y && r.body.velocity.y == g.velocity.y
              && (r.ok <==> AirSteer(m, dims, limit, SpeedScalar * FrictionScalar, FrictionScalar, g, keys).ok)
    ensures 0.0 <= limit && Abs(g.velocity.x) <= limit ==> Abs(r.body.velocity.x) <= limit
  {
    match LandingTest(m, g.position, dims)
    case Throw => Outcome(g, dir, Falling, false)
    case Normal(lands) =>
      if lands then
        match Landed(m, dims, g)
        case Throw => Outcome(g, dir, Falling, false)
        case Normal(l) => Outcome(l, dir, if keys.a || keys.d || Abs(g.velocity.x) > 0.0 then Walking else Idle, true)
      else if g.position.y > CanvasHeight then
        Outcome(g.(position := g.position.(y := 0.0)), dir, Falling, true)
      else
        var s := AirSteer(m, dims, limit, SpeedScalar * FrictionScalar, FrictionScalar, g, keys);
        Outcome(s.body, if keys.a then Left else if keys.d then Right else dir, Falling, s.ok)
  }

  /** One `update` of the Falling state, applied in place. */
  method Update(p: Player, keys: Keys, dt: real) returns (ok: bool)
    requires p.state == Falling
    modifies p
    ensures Outcome(Body(p.position, p.velocity), p.direction, p.state, ok)
            == FallingTick(p.tilemap, p.dimensions, p.velocityLimit.x, Body(old(p.position), old(p.velocity)), old(p.direction), keys, dt)
    ensures old(p.WithinLimit()) ==> p.WithinLimit()
  {
    ghost var b := Body(p.position, p.velocity);
    p.AddGravity(dt);
    assert Body(p.position, p.velocity) == b.(velocity := b.velocity.(y := b.velocity.y + Gravity * dt));
    ghost var r := AfterGravity(p.tilemap, p.dimensions, p.velocityLimit.x, Body(p.position, p.velocity), p.direction, keys);
    assert r == FallingTick(p.tilemap, p.dimensions, p.velocityLimit.x, b, p.direction, keys, dt);
    ok := LandOrSteer(p, keys);
  }

  /** `update` after gravity: land, wrap or steer. */
  method LandOrSteer(p: Player, keys: Keys) returns (ok: bool)
    requires p.state == Falling
    modifies p
    ensures Outcome(Body(p.position, p.velocity), p.direction, p.state, ok)
            == AfterGravity(p.tilemap, p.dimensions, p.velocityLimit.x, Body(old(p.position), old(p.velocity)), old(p.direction), keys)
    ensures old(p.WithinLimit()) ==> p.WithinLimit()
  {
    var lands := LandingTest(p.tilemap, p.position, p.dimensions);
    if lands.Throw? {
      return false;
    }
    if lands.value {
      ok := ResolveCollision(p, keys);
    } else if p.position.y > CanvasHeight {
      p.position := p.position.(y := 0.0);
      ok := true;
    } else {
      ok := p.SteerInAir(keys);
    }
  }
}
