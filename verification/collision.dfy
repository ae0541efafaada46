/** The tile-collision probe of the player (src/Mario-7/src/entities/Player.js:132-248):
    eight probe points around the player's box, the tiles found there, the
    collidable subset, the yes/no collision test and the two wall checks.
    The queries are pure; the wall checks are given here as functions on a
    `Body` value and applied in place by the player classes. */
module Collision {
  import opened Common
  import opened Enums
  import opened Tile
  import opened Tilemap
  import opened Physics

  /** The pixel sampled for each direction, at a fixed 1-2 px offset from
      the box at `pos` with size `dims`; the four plain directions have no
      case of their own and sample (0, 0). */
  function ProbePoint(d: Direction, pos: Vector, dims: Vector): Vector
  {
    match d
    case TopLeft => Vector(pos.x + 2.0, pos.y)
    case TopRight => Vector(pos.x + dims.x - 2.0, pos.y)
    case RightTop => Vector(pos.x + dims.x - 1.0, pos.y + 1.0)
    case RightBottom => Vector(pos.x + dims.x - 1.0, pos.y + dims.y - 1.0)
    case BottomRight => Vector(pos.x + dims.x - 1.0, pos.y + dims.y)
    case BottomLeft => Vector(pos.x + 1.0, pos.y + dims.y)
    case LeftBottom => Vector(pos.x + 1.0, pos.y + dims.y - 1.0)
    case LeftTop => Vector(pos.x + 1.0, pos.y + 1.0)
    case Up => Vector(0.0, 0.0)
    case Down => Vector(0.0, 0.0)
    case Left => Vector(0.0, 0.0)
    case Right => Vector(0.0, 0.0)
  }

  /** The grid read at the probe point of one direction. */
  function Probe(m: Tilemap, pos: Vector, dims: Vector, d: Direction): Completion<Slot>
  {
    var p := ProbePoint(d, pos, dims);
    PointToTile(m, p.x, p.y)
  }

  /** Direction d finds a collidable tile. */
  predicate Blocks(m: Tilemap, pos: Vector, dims: Vector, d: Direction)
  {
    var r := Probe(m, pos, dims, d);
    r.Normal? && r.value.Ref? && r.value.tile.IsCollidable()
  }

  /** `getTilesByDirection`: one grid read per requested direction, pushed in
      order; a read that throws ends the whole query. */
  function TilesByDirection(m: Tilemap, pos: Vector, dims: Vector, dirs: seq<Direction>): (r: Completion<seq<Slot>>)
    ensures r.Normal? <==> forall i :: 0 <= i < |dirs| ==> Probe(m, pos, dims, dirs[i]).Normal?
    ensures r.Normal? ==> |r.value| == |dirs|
    ensures r.Normal? ==> forall i :: 0 <= i < |dirs| ==> Probe(m, pos, dims, dirs[i]) == Normal(r.value[i])
    decreases |dirs|
  {
    if dirs == [] then Normal([])
    else
      var last := dirs[|dirs| - 1];
      match TilesByDirection(m, pos, dims, dirs[..|dirs| - 1])
      case Throw => Throw
      case Normal(front) =>
        match Probe(m, pos, dims, last)
        case Throw => Throw
        case Normal(slot) => Normal(front + [slot])
  }

  /** `tiles.filter(tile => tile?.isCollidable())`. */
  function CollidableSlots(slots: seq<Slot>): (r: seq<Slot>)
    ensures |r| <= |slots|
    ensures forall k :: 0 <= k < |r| ==> r[k].Ref? && r[k].tile.IsCollidable()
    ensures forall k :: 0 <= k < |r| ==> r[k] in slots
    ensures forall i :: 0 <= i < |slots| && slots[i].Ref? && slots[i].tile.IsCollidable() ==> slots[i] in r
    decreases |slots|
  {
    if slots == [] then []
    else
      var last := slots[|slots| - 1];
      var front := CollidableSlots(slots[..|slots| - 1]);
      assert forall i :: 0 <= i < |slots| - 1 ==> slots[..|slots| - 1][i] == slots[i];
      front + (if last.Ref? && last.tile.IsCollidable() then [last] else [])
  }

  /** The filter keeps its input's order: filtering a concatenation is the
      concatenation of the filtered parts. */
  lemma {:induction false} CollidableSlotsAppend(a: seq<Slot>, b: seq<Slot>)
    ensures CollidableSlots(a + b) == CollidableSlots(a) + CollidableSlots(b)
    decreases |b|
  {
    if b == [] {
      assert a + b == a;
    } else {
      var b' := b[..|b| - 1];
      assert (a + b)[..|a + b| - 1] == a + b';
      assert (a + b)[|a + b| - 1] == b[|b| - 1];
      CollidableSlotsAppend(a, b');
    }
  }

  /** `getCollisionTilesByDirection`. */
  function CollisionTilesByDirection(m: Tilemap, pos: Vector, dims: Vector, dirs: seq<Direction>): (r: Completion<seq<Slot>>)
    ensures r.Normal? <==> TilesByDirection(m, pos, dims, dirs).Normal?
    ensures r.Normal? ==> forall k :: 0 <= k < |r.value| ==> r.value[k].Ref? && r.value[k].tile.IsCollidable()
    ensures r.Normal? ==> (r.value != [] <==> exists i :: 0 <= i < |dirs| && Blocks(m, pos, dims, dirs[i]))
  {
    match TilesByDirection(m, pos, dims, dirs)
    case Throw => Throw
    case Normal(slots) =>
      KeptIffBlocked(m, pos, dims, dirs, slots);
      Normal(CollidableSlots(slots))
  }

  lemma KeptIffBlocked(m: Tilemap, pos: Vector, dims: Vector, dirs: seq<Direction>, slots: seq<Slot>)
    requires TilesByDirection(m, pos, dims, dirs) == Normal(slots)
    ensures CollidableSlots(slots) != [] <==> exists i :: 0 <= i < |dirs| && Blocks(m, pos, dims, dirs[i])
  {
    var kept := CollidableSlots(slots);
    if kept != [] {
      assert kept[0] in slots;
      var i :| 0 <= i < |slots| && slots[i] == kept[0];
      assert Blocks(m, pos, dims, dirs[i]);
    }
    if i :| 0 <= i < |dirs| && Blocks(m, pos, dims, dirs[i]) {
      assert slots[i] in kept;
    }
  }

  /** `didCollideWithTiles`: false for an empty filtered list, else whether
      every filtered entry exists. Since the filter keeps only tiles, the
      collision holds as soon as ANY probed direction is collidable. */
  function DidCollideWithTiles(m: Tilemap, pos: Vector, dims: Vector, dirs: seq<Direction>): (r: Completion<bool>)
    ensures r.Normal? <==> forall i :: 0 <= i < |dirs| ==> Probe(m, pos, dims, dirs[i]).Normal?
    ensures r.Normal? ==> (r.value <==> exists i :: 0 <= i < |dirs| && Blocks(m, pos, dims, dirs[i]))
  {
    match CollisionTilesByDirection(m, pos, dims, dirs)
    case Throw => Throw
    case Normal(tiles) =>
      if |tiles| == 0 then Normal(false)
      else Normal(forall k :: 0 <= k < |tiles| ==> tiles[k].Exists())
  }

  /** `isTileCollisionBelow` of the standing states: either bottom probe
      (BottomLeft, BottomRight) finds a collidable tile. */
  function TileCollisionBelow(m: Tilemap, pos: Vector, dims: Vector): (r: Completion<bool>)
    ensures r.Normal? <==> Probe(m, pos, dims, BottomLeft).Normal? && Probe(m, pos, dims, BottomRight).Normal?
    ensures r.Normal? ==> (r.value <==> Blocks(m, pos, dims, BottomLeft) || Blocks(m, pos, dims, BottomRight))
  {
    var dirs := [BottomLeft, BottomRight];
    assert dirs[0] == BottomLeft && dirs[1] == BottomRight;
    DidCollideWithTiles(m, pos, dims, dirs)
  }

  /** `isTileCollisionAbove` of the Jumping state: either top probe
      (TopLeft, TopRight) finds a collidable tile. */
  function TileCollisionAbove(m: Tilemap, pos: Vector, dims: Vector): (r: Completion<bool>)
    ensures r.Normal? <==> Probe(m, pos, dims, TopLeft).Normal? && Probe(m, pos, dims, TopRight).Normal?
    ensures r.Normal? ==> (r.value <==> Blocks(m, pos, dims, TopLeft) || Blocks(m, pos, dims, TopRight))
  {
    var dirs := [TopLeft, TopRight];
    assert dirs[0] == TopLeft && dirs[1] == TopRight;
    DidCollideWithTiles(m, pos, dims, dirs)
  }

  /** A wall check's effect: the new body and whether it ran to the end
      (`ok == false`: a grid read threw; `body` is the state at that point). */
  datatype Step = Step(body: Body, ok: bool)

  /** Every tile of the map lies inside the map's pixel width. */
  predicate TilesPlaced(m: Tilemap)
  {
    forall row, col :: 0 <= row < |m.tiles| && 0 <= col < |m.tiles[row]| ==>
      0 <= m.tiles[row][col].position.x && (m.tiles[row][col].position.x + 1) * TileSize <= m.canvasDimensions.x
  }

  /** The left-wall clamp every build's `checkLeftCollisions` starts with:
      a player past pixel 0 is put back on it and stopped; one inside is
      left alone. */
  function ClampLeft(b: Body): (r: Body)
    ensures r.position.x >= 0.0
    ensures r.position.y == b.position.y && r.velocity.y == b.velocity.y
    ensures b.position.x < 0.0 ==> r.velocity.x == 0.0 && r.position.x == 0.0
    ensures b.position.x >= 0.0 ==> r == b
  {
    if b.position.x < 0.0 then Body(b.position.(x := 0.0), b.velocity.(x := 0.0)) else b
  }

  /** `checkLeftCollisions`: clamp at pixel 0, then, if either left probe hits
      a collidable tile, stop and stand just right of the LeftTop tile. */
  function LeftCollisions(m: Tilemap, dims: Vector, b: Body): (r: Step)
    ensures r.ok <==> DidCollideWithTiles(m, ClampLeft(b).position, dims, [LeftBottom, LeftTop]).Normal?
    ensures r.body.position.y == b.position.y && r.body.velocity.y == b.velocity.y
    ensures r.body.velocity.x == b.velocity.x || r.body.velocity.x == 0.0
    ensures b.position.x < 0.0 ==> r.body.velocity.x == 0.0
    ensures r.ok && TilesPlaced(m) ==> r.body.position.x >= 0.0
    ensures !r.ok ==> r.body == ClampLeft(b)
    ensures DidCollideWithTiles(m, ClampLeft(b).position, dims, [LeftBottom, LeftTop]) == Normal(false) ==>
              r == Step(ClampLeft(b), true)
    ensures DidCollideWithTiles(m, ClampLeft(b).position, dims, [LeftBottom, LeftTop]) == Normal(true) ==>
              && r.ok && r.body.velocity.x == 0.0
              && (!Probe(m, ClampLeft(b).position, dims, LeftTop).value.Ref? ==> r.body.position == ClampLeft(b).position)
  {
    var b1 := ClampLeft(b);
    match DidCollideWithTiles(m, b1.position, dims, [LeftBottom, LeftTop])
    case Throw => Step(b1, false)
    case Normal(hit) =>
      if !hit then Step(b1, true)
      else
        match TilesByDirection(m, b1.position, dims, [LeftTop])
        case Throw => Step(b1, false)
        case Normal(found) =>
          var b2 := b1.(velocity := b1.velocity.(x := 0.0));
          if found[0].Ref? then
            var t := found[0].tile;
            assert Probe(m, b1.position, dims, LeftTop) == Normal(found[0]);
            Step(b2.(position := b2.position.(x := (t.position.x * t.Dimensions().x + t.Dimensions().x - 1) as real)), true)
          else Step(b2, true)
  }

  /** The right-wall clamp every build's `checkRightCollisions` starts with,
      for a player whose left edge may go as far as `right` (the canvas
      width minus the player's width). */
  function ClampRightAt(b: Body, right: real): (r: Body)
    ensures r.position.x <= right
    ensures r.position.y == b.position.y && r.velocity.y == b.velocity.y
    ensures b.position.x > right ==> r.velocity.x == 0.0 && r.position.x == right
    ensures b.position.x <= right ==> r == b
  {
    if b.position.x > right then Body(b.position.(x := right), b.velocity.(x := 0.0)) else b
  }

  /** Both canvas clamps, left first, for a player whose left edge may go as
      far as `right`: the whole of the wall checks in the builds without
      tile collisions. */
  function CanvasWalls(b: Body, right: real): (r: Body)
    ensures r.position.x <= right
    ensures 0.0 <= right ==> 0.0 <= r.position.x
    ensures r.position.y == b.position.y && r.velocity.y == b.velocity.y
    ensures 0.0 <= b.position.x <= right ==> r == b
    ensures r.velocity.x == b.velocity.x || r.velocity.x == 0.0
  {
    ClampRightAt(ClampLeft(b), right)
  }

  /** The right-wall clamp of the Mario-7 `checkRightCollisions`, at the
      map's pixel width. */
  function ClampRight(m: Tilemap, dims: Vector, b: Body): Body
  {
    ClampRightAt(b, m.canvasDimensions.x as real - dims.x)
  }

  /** `checkRightCollisions`: clamp at the map's pixel width, then, if either
      right probe hits a collidable tile, stop and stand just left of the
      RightTop tile. */
  function RightCollisions(m: Tilemap, dims: Vector, b: Body): (r: Step)
    ensures r.ok <==> DidCollideWithTiles(m, ClampRight(m, dims, b).position, dims, [RightBottom, RightTop]).Normal?
    ensures r.body.position.y == b.position.y && r.body.velocity.y == b.velocity.y
    ensures r.body.velocity.x == b.velocity.x || r.body.velocity.x == 0.0
    ensures b.position.x > m.canvasDimensions.x as real - dims.x ==> r.body.velocity.x == 0.0
    ensures r.ok && TilesPlaced(m) ==> r.body.position.x <= m.canvasDimensions.x as real - dims.x
    ensures !r.ok ==> r.body == ClampRight(m, dims, b)
    ensures DidCollideWithTiles(m, ClampRight(m, dims, b).position, dims, [RightBottom, RightTop]) == Normal(false) ==>
              r == Step(ClampRight(m, dims, b), true)
    ensures DidCollideWithTiles(m, ClampRight(m, dims, b).position, dims, [RightBottom, RightTop]) == Normal(true) ==>
              && r.ok && r.body.velocity.x == 0.0
              && (!Probe(m, ClampRight(m, dims, b).position, dims, RightTop).value.Ref? ==>
                    r.body.position == ClampRight(m, dims, b).position)
  {
    var b1 := ClampRight(m, dims, b);
    match DidCollideWithTiles(m, b1.position, dims, [RightBottom, RightTop])
    case Throw => Step(b1, false)
    case Normal(hit) =>
      if !hit then Step(b1, true)
      else
        match TilesByDirection(m, b1.position, dims, [RightTop])
        case Throw => Step(b1, false)
        case Normal(found) =>
          var b2 := b1.(velocity := b1.velocity.(x := 0.0));
          if found[0].Ref? then
            var t := found[0].tile;
            assert Probe(m, b1.position, dims, RightTop) == Normal(found[0]);
            Step(b2.(position := b2.position.(x := (t.position.x * t.Dimensions().x) as real - dims.x)), true)
          else Step(b2, true)
  }

  /** Both wall checks in the order the states run them: left, then right;
      the right check is skipped when the left one threw. */
  function WallChecks(m: Tilemap, dims: Vector, b: Body): (r: Step)
    ensures r.body.position.y == b.position.y && r.body.velocity.y == b.velocity.y
    ensures r.body.velocity.x == b.velocity.x || r.body.velocity.x == 0.0
    ensures r.ok && TilesPlaced(m) ==> r.body.position.x <= m.canvasDimensions.x as real - dims.x
  {
    var left := LeftCollisions(m, dims, b);
    if !left.ok then left else RightCollisions(m, dims, left.body)
  }

  /** A left wall snap puts the player one pixel short of the next column,
      so its LeftTop probe (x + 1) falls in the column right of the tile. */
  lemma LeftSnapClearsTile(m: Tilemap, dims: Vector, b: Body, t: Tile)
    requires DidCollideWithTiles(m, ClampLeft(b).position, dims, [LeftBottom, LeftTop]) == Normal(true)
    requires Probe(m, ClampLeft(b).position, dims, LeftTop) == Normal(Ref(t))
    ensures LeftCollisions(m, dims, b).body.position.x == (t.position.x * TileSize + TileSize - 1) as real
    ensures LeftCollisions(m, dims, b).body.velocity.x == 0.0
    ensures CellIndex(ProbePoint(LeftTop, LeftCollisions(m, dims, b).body.position, dims).x) == t.position.x + 1
  {
    var found := TilesByDirection(m, ClampLeft(b).position, dims, [LeftTop]);
    assert [LeftTop][0] == LeftTop;
    assert found.Normal?;
    assert found.value[0] == Ref(t);
    var x := (t.position.x * TileSize + TileSize - 1) as real;
    assert LeftCollisions(m, dims, b).body.position.x == x;
    ColumnAfter(t.position.x);
  }

  /** One pixel past the last pixel of column `c` lies in column `c + 1`. */
  lemma ColumnAfter(c: int)
    ensures CellIndex((c * TileSize + TileSize - 1) as real + 1.0) == c + 1
  {
    assert (c * TileSize + TileSize - 1) as real + 1.0 == ((c + 1) * TileSize) as real;
    CellIndexExact(c + 1);
  }

  /** The pixel just before the first pixel of column `c` lies in column
      `c - 1`. */
  lemma ColumnBefore(c: int)
    ensures CellIndex((c * TileSize) as real - 1.0) == c - 1
  {
    var px := (c * TileSize) as real - 1.0;
    CellIndexBounds(px);
    var k := CellIndex(px);
    assert k * TileSize < c * TileSize;
    assert (k + 1) * TileSize > c * TileSize - 1;
  }

  /** A right wall snap puts the player's right edge on the tile's left edge,
      so its RightTop probe (x + width - 1) falls in the column left of it. */
  lemma RightSnapClearsTile(m: Tilemap, dims: Vector, b: Body, t: Tile)
    requires DidCollideWithTiles(m, ClampRight(m, dims, b).position, dims, [RightBottom, RightTop]) == Normal(true)
    requires Probe(m, ClampRight(m, dims, b).position, dims, RightTop) == Normal(Ref(t))
    ensures RightCollisions(m, dims, b).body.position.x == (t.position.x * TileSize) as real - dims.x
    ensures RightCollisions(m, dims, b).body.velocity.x == 0.0
    ensures CellIndex(ProbePoint(RightTop, RightCollisions(m, dims, b).body.position, dims).x) == t.position.x - 1
  {
    var found := TilesByDirection(m, ClampRight(m, dims, b).position, dims, [RightTop]);
    assert [RightTop][0] == RightTop;
    assert found.Normal?;
    assert found.value[0] == Ref(t);
    var x := (t.position.x * TileSize) as real - dims.x;
    assert RightCollisions(m, dims, b).body.position.x == x;
    assert x + dims.x - 1.0 == (t.position.x * TileSize) as real - 1.0;
    ColumnBefore(t.position.x);
  }

  /** The four plain directions have no probe offset and read pixel (0, 0). */
  lemma PlainDirectionsReadOrigin(m: Tilemap, pos: Vector, dims: Vector, d: Direction)
    requires d == Up || d == Down || d == Left || d == Right
    ensures Probe(m, pos, dims, d) == PointToTile(m, 0.0, 0.0)
  {
  }

  /** The steering branch the airborne states share, with move step `delta`
      (speed times friction), friction factor `friction` and horizontal
      speed limit `limit`: a steps left and runs the left wall check, d steps
      right and runs the right one, and with neither key the player brakes.
      The vertical motion is never touched. */
  function AirSteer(m: Tilemap, dims: Vector, limit: real, delta: real, friction: real, b: Body, keys: Keys): (r: Step)
    requires 0.0 <= friction <= 1.0
    ensures r.body.position.y == b.position.y && r.body.velocity.y == b.velocity.y
    ensures !keys.a && !keys.d ==> r.ok && r.body.position == b.position
    ensures !keys.a && !keys.d ==> r.body.velocity.x == StopStep(b.velocity.x, friction)
    ensures keys.a ==> r.body.velocity.x == StepLeft(b.velocity.x, delta, limit) || r.body.velocity.x == 0.0
    ensures !keys.a && keys.d ==> r.body.velocity.x == StepRight(b.velocity.x, delta, limit) || r.body.velocity.x == 0.0
    ensures 0.0 <= delta && 0.0 <= limit && Abs(b.velocity.x) <= limit ==> Abs(r.body.velocity.x) <= limit
  {
    if keys.a then
      LeftCollisions(m, dims, b.(velocity := b.velocity.(x := StepLeft(b.velocity.x, delta, limit))))
    else if keys.d then
      RightCollisions(m, dims, b.(velocity := b.velocity.(x := StepRight(b.velocity.x, delta, limit))))
    else
      Step(b.(velocity := b.velocity.(x := StopStep(b.velocity.x, friction))), true)
  }
}
