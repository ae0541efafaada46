/** One cell of the level (src/Mario-7/src/objects/Tile.js). A tile is never
    changed after it is built, so it is a value. */
module Tile {
  import opened Enums
  import opened Common

  /** `Tile.TILE_SIZE`: every tile is this many pixels wide and tall. */
  const TileSize: int := 16

  /** `Tile.COLLIDABLE_TILES`: the tile types that stop the player. */
  const CollidableTiles: seq<TileType> := [Ground]

  /** A tile at grid coordinates `position` (columns and rows, not pixels),
      with the tile-set and topper-set indices chosen for its level. */
  datatype Tile = Tile(position: Dim, id: TileType, hasTopper: bool, tileSet: int, topperSet: int)
  {
    /** `dimensions`: fixed by the constructor whatever its arguments. */
    function Dimensions(): Dim { Dim(TileSize, TileSize) }

    /** `isCollidable()`: membership of the type in `CollidableTiles`. */
    predicate IsCollidable()
      ensures IsCollidable() <==> id == Ground
    {
      id in CollidableTiles
    }
  }
}
