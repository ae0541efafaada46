/** The grid of tiles that makes up a level (src/Mario-7/src/objects/Tilemap.js).
    The grid is never changed after construction, so the map is a value. */
module Tilemap {
  import opened Common
  import opened Tile

  /** `dimensions` is the size in tiles, `canvasDimensions` the size in pixels;
      `tiles[row][column]`. */
  datatype Tilemap = Tilemap(dimensions: Dim, canvasDimensions: Dim, tiles: seq<seq<Tile>>)

  /** What a JavaScript read of the grid gives back: `null` (the guard),
      `undefined` (a column past the end of its row) or a tile. */
  datatype Slot = Null | Undefined | Ref(tile: Tile) {
    /** Truthiness, as in `if (tile)` and `tile?.isCollidable()`. */
    predicate Exists() { Ref? }
  }

  /** The constructor: the pixel size is the tile size times the grid size. */
  function NewTilemap(width: int, height: int, tiles: seq<seq<Tile>>): (m: Tilemap)
    ensures m.dimensions == Dim(width, height) && m.tiles == tiles
    ensures m.canvasDimensions.x == width * TileSize && m.canvasDimensions.y == height * TileSize
  {
    Tilemap(Dim(width, height), Dim(width * TileSize, height * TileSize), tiles)
  }

  /** The grid index of the cell holding pixel coordinate p: `Math.floor(p / TILE_SIZE)`. */
  function CellIndex(p: real): int
  {
    (p / TileSize as real).Floor
  }

  /** The pixel guard of `pointToTile`: strict `>` on the far edges. */
  predicate InGuard(m: Tilemap, x: real, y: real)
  {
    !(x < 0.0 || x > m.canvasDimensions.x as real || y < 0.0 || y > m.canvasDimensions.y as real)
  }

  /** `pointToTile(x, y)`: `null` outside the map's pixel bounds, else
      `tiles[floor(y/16)][floor(x/16)]`, which is `undefined` past the end of
      a row and throws when the row itself does not exist. */
  function PointToTile(m: Tilemap, x: real, y: real): (r: Completion<Slot>)
    ensures !InGuard(m, x, y) ==> r == Normal(Null)
    ensures InGuard(m, x, y) && 0 <= CellIndex(y) < |m.tiles| && 0 <= CellIndex(x) < |m.tiles[CellIndex(y)]|
            ==> r == Normal(Ref(m.tiles[CellIndex(y)][CellIndex(x)]))
    ensures r == Throw ==> InGuard(m, x, y) && CellIndex(y) >= |m.tiles|
  {
    if !InGuard(m, x, y) then Normal(Null)
    else
      var row, col := CellIndex(y), CellIndex(x);
      if row < 0 || row >= |m.tiles| then Throw
      else if col < 0 || col >= |m.tiles[row]| then Normal(Undefined)
      else Normal(Ref(m.tiles[row][col]))
  }

  /** A `width` x `height` grid whose every row is complete. */
  predicate Rectangular(m: Tilemap)
  {
    && m.dimensions.x >= 0 && m.dimensions.y >= 0
    && m.canvasDimensions == Dim(m.dimensions.x * TileSize, m.dimensions.y * TileSize)
    && |m.tiles| == m.dimensions.y
    && forall row :: 0 <= row < |m.tiles| ==> |m.tiles[row]| == m.dimensions.x
  }

  /** Floor division by the tile size places a pixel inside its cell. */
  lemma CellIndexBounds(p: real)
    ensures (CellIndex(p) * TileSize) as real <= p < ((CellIndex(p) + 1) * TileSize) as real
  {
    var q := p / TileSize as real;
    assert q.Floor as real <= q < q.Floor as real + 1.0;
    assert p == q * 16.0;
  }

  /** A pixel strictly inside the map's pixel area finds the tile of the cell
      that contains it. */
  lemma PointToTileInside(m: Tilemap, x: real, y: real)
    requires Rectangular(m)
    requires 0.0 <= x < m.canvasDimensions.x as real && 0.0 <= y < m.canvasDimensions.y as real
    ensures 0 <= CellIndex(y) < m.dimensions.y && 0 <= CellIndex(x) < m.dimensions.x
    ensures (CellIndex(x) * TileSize) as real <= x < ((CellIndex(x) + 1) * TileSize) as real
    ensures (CellIndex(y) * TileSize) as real <= y < ((CellIndex(y) + 1) * TileSize) as real
    ensures PointToTile(m, x, y) == Normal(Ref(m.tiles[CellIndex(y)][CellIndex(x)]))
  {
    CellIndexBounds(x);
    CellIndexBounds(y);
    CellIndexBelow(x, m.dimensions.x);
    CellIndexBelow(y, m.dimensions.y);
  }

  lemma CellIndexBelow(p: real, n: int)
    requires 0.0 <= p < (n * TileSize) as real
    ensures 0 <= CellIndex(p) < n
  {
    CellIndexBounds(p);
  }

  /** The strict guard lets the far edges through: x equal to the pixel width
      reads one column past the end of its row (`undefined`), and y equal to
      the pixel height reads a row that does not exist, which throws. */
  lemma PointToTileFarEdges(m: Tilemap, x: real, y: real)
    requires Rectangular(m) && m.dimensions.x > 0 && m.dimensions.y > 0
    ensures 0.0 <= y < m.canvasDimensions.y as real ==> PointToTile(m, m.canvasDimensions.x as real, y) == Normal(Undefined)
    ensures 0.0 <= x <= m.canvasDimensions.x as real ==> PointToTile(m, x, m.canvasDimensions.y as real) == Throw
  {
    if 0.0 <= y < m.canvasDimensions.y as real {
      CellIndexBelow(y, m.dimensions.y);
      CellIndexExact(m.dimensions.x);
    }
    CellIndexExact(m.dimensions.y);
  }

  lemma CellIndexExact(n: int)
    ensures CellIndex((n * TileSize) as real) == n
  {
    var p := (n * TileSize) as real;
    assert p / TileSize as real == n as real;
  }
}
