/** The flat level generator of the Mario-4 build
    (src/Mario-4/src/services/LevelMaker.js): sky above the ground height,
    ground from there down, one tile per column in every row. The Mario-4
    tile and tile map classes are not part of this model; their tiles are
    recorded by grid position and type. */
module Mario4LevelMaker {
  /** `TileType` of the Mario-4 build. */
  datatype FlatType = FlatGround | Sky

  /** A tile as `new Tile(x, y, tileType, sprites)` records it; the shared
      sprite list is left out. */
  datatype FlatTile = FlatTile(x: int, y: int, kind: FlatType)

  datatype FlatMap = FlatMap(width: int, height: int, tiles: seq<seq<FlatTile>>)

  const DefaultLevelWidth: int := 45
  const DefaultLevelHeight: int := 18
  const GroundHeight: int := DefaultLevelHeight - 4

  /** The type of every tile in row y. */
  function KindAt(y: int): FlatType
  {
    if y < GroundHeight then Sky else FlatGround
  }

  /** Row y after the first n columns. */
  function FlatRow(n: nat, y: int): seq<FlatTile>
  {
    seq(n, x requires 0 <= x < n => FlatTile(x, y, KindAt(y)))
  }

  /** `generateLevel`: `height` empty rows, then for each column, from the
      top row down, push that column's tile onto each row. */
  method GenerateLevel(width: nat, height: nat) returns (m: FlatMap)
    ensures m.width == width && m.height == height
    ensures |m.tiles| == height
    ensures forall y :: 0 <= y < height ==> |m.tiles[y]| == width
    ensures forall y, x :: 0 <= y < height && 0 <= x < width ==>
              m.tiles[y][x] == FlatTile(x, y, if y < GroundHeight then Sky else FlatGround)
  {
    var tiles: seq<seq<FlatTile>> := [];
    var i := 0;
    while i < height
      invariant 0 <= i <= height
      invariant |tiles| == i
      invariant forall y :: 0 <= y < i ==> tiles[y] == []
    {
      tiles := tiles + [[]];
      i := i + 1;
    }
    var x := 0;
    while x < width
      invariant 0 <= x <= width
      invariant |tiles| == height
      invariant forall y :: 0 <= y < height ==> tiles[y] == FlatRow(x, y)
    {
      var y := 0;
      while y < height
        invariant 0 <= y <= height
        invariant |tiles| == height
        invariant forall k :: 0 <= k < y ==> tiles[k] == FlatRow(x + 1, k)
        invariant forall k :: y <= k < height ==> tiles[k] == FlatRow(x, k)
      {
        var tileType := if y < GroundHeight then Sky else FlatGround;
        FlatRowGrows(x, y);
        tiles := tiles[y := tiles[y] + [FlatTile(x, y, tileType)]];
        y := y + 1;
      }
      x := x + 1;
    }
    m := FlatMap(width, height, tiles);
    forall y, j | 0 <= y < height && 0 <= j < width
      ensures m.tiles[y][j] == FlatTile(j, y, if y < GroundHeight then Sky else FlatGround)
    {
      assert m.tiles[y] == FlatRow(width, y);
      assert FlatRow(width, y)[j] == FlatTile(j, y, KindAt(y));
    }
  }

  lemma FlatRowGrows(n: nat, y: int)
    ensures FlatRow(n + 1, y) == FlatRow(n, y) + [FlatTile(n, y, KindAt(y))]
  {
    assert forall x :: 0 <= x < n ==> FlatRow(n + 1, y)[x] == FlatRow(n, y)[x];
  }
}
