/** The procedural level generator of the Mario-7 build
    (src/Mario-7/src/services/LevelMaker.js). The grid `tiles` is a list of
    rows that the static helpers grow in place; here each helper takes the
    rows and returns the grown rows. The random draws of one column are an
    input record. */
module Mario7LevelMaker {
  import opened Enums
  import opened Common
  import opened Tile
  import opened Tilemap
  import opened Collision

  const DefaultLevelWidth: int := 45
  const DefaultLevelHeight: int := 18
  /** `GROUND_HEIGHT`: the first row of the ground, `DEFAULT_LEVEL_HEIGHT - 4`. */
  const GroundHeight: int := DefaultLevelHeight - 4
  /** `MAX_PILLAR_HEIGHT`: the highest row a pillar can start at (the smallest index). */
  const MaxPillarHeight: int := GroundHeight - 6
  const MinChasmWidth: int := 2
  const MaxChasmWidth: int := 5
  /** The number of tile sets (`TILE_SETS_WIDTH * TILE_SET_HEIGHT`) and of
      topper sets (`TOPPER_SETS_WIDTH * TOPPER_SETS_HEIGHT`). */
  const TileSetCount: int := 6 * 4
  const TopperSetCount: int := 6 * 18

  /** The random draws made while building column x: the chasm roll
      (`didSucceedChance(CHASM_CHANCE)`) and width, the pillar roll
      (`didSucceedChance(PILLAR_CHANCE)`) and pillar height. A draw that the
      code does not make for this column is ignored. */
  datatype ColumnDraw = ColumnDraw(chasm: bool, chasmWidth: int, pillar: bool, pillarHeight: int)

  /** The ranges the random helpers return: a chasm width in [2, 5] and a
      pillar top row in [8, 14]. */
  predicate ValidDraw(d: ColumnDraw)
  {
    MinChasmWidth <= d.chasmWidth <= MaxChasmWidth && MaxPillarHeight <= d.pillarHeight <= GroundHeight
  }

  predicate ValidDraws(draws: seq<ColumnDraw>)
  {
    forall i :: 0 <= i < |draws| ==> ValidDraw(draws[i])
  }

  // ---------------------------------------------------------------------
  // What the generator builds, column by column

  /** The chasm counter after one column: a running chasm counts down, and
      an idle counter may start a new chasm. */
  function NextCounter(counter: int, d: ColumnDraw): int
  {
    if counter != 0 then counter - 1 else if d.chasm then d.chasmWidth else 0
  }

  /** The chasm counter when column x is reached. */
  function CounterBefore(draws: seq<ColumnDraw>, x: nat): int
    requires x <= |draws|
  {
    if x == 0 then 0 else NextCounter(CounterBefore(draws, x - 1), draws[x - 1])
  }

  /** Column x gets a ground column: the counter is 0 after its chasm step. */
  predicate HasColumn(draws: seq<ColumnDraw>, x: nat)
    requires x < |draws|
  {
    CounterBefore(draws, x + 1) == 0
  }

  /** The top row of a ground column: the pillar height for a pillar, else
      the ground height. */
  function ColumnStart(d: ColumnDraw): int
  {
    if d.pillar then d.pillarHeight else GroundHeight
  }

  function EmptyTile(x: int, y: int, tileSet: int, topperSet: int): Tile
  {
    Tile(Dim(x, y), Empty, false, tileSet, topperSet)
  }

  /** A ground tile of a column whose top row is `start`: only the top tile
      carries a topper. */
  function GroundTile(x: int, y: int, start: int, tileSet: int, topperSet: int): Tile
  {
    Tile(Dim(x, y), Ground, y == start, tileSet, topperSet)
  }

  /** The tile an upper row (above the ground height) holds at column x: sky,
      or pillar ground when column x is a pillar reaching row y. */
  function UpperTile(draws: seq<ColumnDraw>, x: nat, y: int, tileSet: int, topperSet: int): Tile
    requires x < |draws|
  {
    if HasColumn(draws, x) && ColumnStart(draws[x]) <= y then GroundTile(x, y, ColumnStart(draws[x]), tileSet, topperSet)
    else EmptyTile(x, y, tileSet, topperSet)
  }

  /** An upper row after n columns: one tile per column, at its own index. */
  function UpperRow(draws: seq<ColumnDraw>, n: nat, y: int, tileSet: int, topperSet: int): (r: seq<Tile>)
    requires n <= |draws|
  {
    seq(n, j requires 0 <= j < n => UpperTile(draws, j, y, tileSet, topperSet))
  }

  /** A lower row (at or below the ground height) after n columns: each
      column appends a chasm tile while a chasm runs, and then a ground tile
      when it gets a ground column. */
  function LowerRow(draws: seq<ColumnDraw>, n: nat, y: int, tileSet: int, topperSet: int): seq<Tile>
    requires n <= |draws|
  {
    if n == 0 then []
    else
      var x := n - 1;
      LowerRow(draws, x, y, tileSet, topperSet)
      + (if CounterBefore(draws, x) != 0 then [EmptyTile(x, y, tileSet, topperSet)] else [])
      + (if HasColumn(draws, x) then [GroundTile(x, y, ColumnStart(draws[x]), tileSet, topperSet)] else [])
  }

  /** Row y of the grid after n columns. */
  function LevelRow(draws: seq<ColumnDraw>, n: nat, y: int, tileSet: int, topperSet: int): seq<Tile>
    requires n <= |draws|
  {
    if y < GroundHeight then UpperRow(draws, n, y, tileSet, topperSet) else LowerRow(draws, n, y, tileSet, topperSet)
  }

  /** The map `generateLevel` returns. */
  function Level(draws: seq<ColumnDraw>, width: nat, height: nat, tileSet: int, topperSet: int): Tilemap
    requires width == |draws|
  {
    NewTilemap(width, height, seq(height, y requires 0 <= y < height => LevelRow(draws, width, y, tileSet, topperSet)))
  }

  // ---------------------------------------------------------------------
  // Properties of the generated grid

  /** The chasm counter never goes negative and never exceeds the widest
      chasm. */
  lemma {:induction false} CounterInRange(draws: seq<ColumnDraw>, x: nat)
    requires ValidDraws(draws) && x <= |draws|
    ensures 0 <= CounterBefore(draws, x) <= MaxChasmWidth
  {
    if x > 0 {
      CounterInRange(draws, x - 1);
      assert ValidDraw(draws[x - 1]);
    }
  }

  /** A lower row holds one tile per column, except that it is one short
      while a chasm is still running: the column that starts a chasm
      appends nothing. */
  lemma {:induction false} LowerRowLength(draws: seq<ColumnDraw>, n: nat, y: int, tileSet: int, topperSet: int)
    requires ValidDraws(draws) && n <= |draws|
    ensures |LowerRow(draws, n, y, tileSet, topperSet)| == if CounterBefore(draws, n) > 0 then n - 1 else n
  {
    if n > 0 {
      LowerRowLength(draws, n - 1, y, tileSet, topperSet);
      CounterInRange(draws, n - 1);
      CounterInRange(draws, n);
    }
  }

  /** The tile at index j of a lower row: the ground tile of column j when
      column j got one; otherwise a chasm tile made one column later, so its
      `position.x` is one more than its index. */
  lemma {:induction false} LowerRowAt(draws: seq<ColumnDraw>, n: nat, y: int, tileSet: int, topperSet: int, j: nat)
    requires ValidDraws(draws) && n <= |draws|
    requires j < |LowerRow(draws, n, y, tileSet, topperSet)|
    ensures j < n
    ensures LowerRow(draws, n, y, tileSet, topperSet)[j]
            == if HasColumn(draws, j) then GroundTile(j, y, ColumnStart(draws[j]), tileSet, topperSet)
               else EmptyTile(j + 1, y, tileSet, topperSet)
  {
    var x := n - 1;
    var front := LowerRow(draws, x, y, tileSet, topperSet);
    LowerRowLength(draws, n, y, tileSet, topperSet);
    LowerRowLength(draws, x, y, tileSet, topperSet);
    CounterInRange(draws, x);
    if j < |front| {
      LowerRowAt(draws, x, y, tileSet, topperSet, j);
    } else if CounterBefore(draws, x) != 0 && j == |front| {
      assert j == x - 1;
      assert !HasColumn(draws, j);
    } else {
      assert j == x;
    }
  }

  /** Every ground column of the level stands at its own index in the lower
      rows, from the ground height down. */
  lemma GroundAtColumn(draws: seq<ColumnDraw>, n: nat, y: int, tileSet: int, topperSet: int, x: nat)
    requires ValidDraws(draws) && x < n <= |draws|
    requires HasColumn(draws, x)
    ensures x < |LowerRow(draws, n, y, tileSet, topperSet)|
    ensures LowerRow(draws, n, y, tileSet, topperSet)[x] == GroundTile(x, y, ColumnStart(draws[x]), tileSet, topperSet)
  {
    LowerRowLength(draws, n, y, tileSet, topperSet);
    if x == n - 1 {
      assert CounterBefore(draws, n) == 0;
    }
    LowerRowAt(draws, n, y, tileSet, topperSet, x);
  }

  /** The generated map: `height` rows; rows above the ground height hold
      exactly `width` tiles; lower rows hold `width` tiles, or `width - 1`
      when a chasm is still running after the last column. */
  lemma LevelShape(draws: seq<ColumnDraw>, width: nat, height: nat, tileSet: int, topperSet: int)
    requires ValidDraws(draws) && width == |draws|
    ensures var m := Level(draws, width, height, tileSet, topperSet);
            && |m.tiles| == height
            && m.canvasDimensions == Dim(width * TileSize, height * TileSize)
            && (forall y :: 0 <= y < height && y < GroundHeight ==> |m.tiles[y]| == width)
            && (forall y :: GroundHeight <= y < height ==>
                  |m.tiles[y]| == if CounterBefore(draws, width) > 0 then width - 1 else width)
  {
    var m := Level(draws, width, height, tileSet, topperSet);
    forall y | GroundHeight <= y < height
      ensures |m.tiles[y]| == if CounterBefore(draws, width) > 0 then width - 1 else width
    {
      LowerRowLength(draws, width, y, tileSet, topperSet);
    }
  }

  /** One tile of the generated map: it sits in its own row, carries the
      level's tile set and topper set, is ground exactly when it belongs to a
      ground column reaching that row, has a topper only as the top tile of a
      ground column, and lies inside the map's pixel width. */
  lemma LevelTileAt(draws: seq<ColumnDraw>, width: nat, height: nat, tileSet: int, topperSet: int, y: nat, j: nat)
    requires ValidDraws(draws) && width == |draws|
    requires y < height && j < |Level(draws, width, height, tileSet, topperSet).tiles[y]|
    ensures j < width
    ensures var t := Level(draws, width, height, tileSet, topperSet).tiles[y][j];
            && t.position.y == y
            && t.tileSet == tileSet && t.topperSet == topperSet
            && 0 <= t.position.x < width
            && (t.id == Ground <==> t.position.x == j && HasColumn(draws, j) && ColumnStart(draws[j]) <= y)
            && (t.hasTopper ==> t.id == Ground && y == ColumnStart(draws[j]))
  {
    var row := LevelRow(draws, width, y, tileSet, topperSet);
    assert Level(draws, width, height, tileSet, topperSet).tiles[y] == row;
    if y >= GroundHeight {
      LowerRowAt(draws, width, y, tileSet, topperSet, j);
      LowerRowLength(draws, width, y, tileSet, topperSet);
      if !HasColumn(draws, j) && j == width - 1 {
        assert CounterBefore(draws, width) != 0;
      }
    }
  }

  /** Every tile of a generated map lies at its own row and column, which
      `pointToTile` and the collision probes rely on. */
  lemma LevelTilesPlaced(draws: seq<ColumnDraw>, width: nat, height: nat, tileSet: int, topperSet: int)
    requires ValidDraws(draws) && width == |draws|
    ensures TilesPlaced(Level(draws, width, height, tileSet, topperSet))
  {
    var m := Level(draws, width, height, tileSet, topperSet);
    forall row, col | 0 <= row < |m.tiles| && 0 <= col < |m.tiles[row]|
      ensures 0 <= m.tiles[row][col].position.x && (m.tiles[row][col].position.x + 1) * TileSize <= m.canvasDimensions.x
    {
      LevelTileAt(draws, width, height, tileSet, topperSet, row, col);
    }
  }

  // ---------------------------------------------------------------------
  // The generator's steps

  /** `initializeTilemap`: push `height` empty rows. */
  method InitializeTilemap(height: nat) returns (tiles: seq<seq<Tile>>)
    ensures |tiles| == height
    ensures forall y :: 0 <= y < height ==> tiles[y] == []
  {
    tiles := [];
    var i := 0;
    while i < height
      invariant 0 <= i <= height
      invariant |tiles| == i
      invariant forall y :: 0 <= y < i ==> tiles[y] == []
    {
      tiles := tiles + [[]];
      i := i + 1;
    }
  }

  /** `generateEmptySpace`: append a sky tile to each of the rows above the
      ground height. */
  method GenerateEmptySpace(tiles: seq<seq<Tile>>, x: int, tileSet: int, topperSet: int) returns (r: seq<seq<Tile>>)
    requires |tiles| >= GroundHeight
    ensures |r| == |tiles|
    ensures forall y :: 0 <= y < GroundHeight ==> r[y] == tiles[y] + [EmptyTile(x, y, tileSet, topperSet)]
    ensures forall y :: GroundHeight <= y < |tiles| ==> r[y] == tiles[y]
  {
    r := tiles;
    var y := 0;
    while y < GroundHeight
      invariant 0 <= y <= GroundHeight
      invariant |r| == |tiles|
      invariant forall k :: 0 <= k < y ==> r[k] == tiles[k] + [EmptyTile(x, k, tileSet, topperSet)]
      invariant forall k :: y <= k < |tiles| ==> r[k] == tiles[k]
    {
      r := r[y := r[y] + [EmptyTile(x, y, tileSet, topperSet)]];
      y := y + 1;
    }
  }

  /** `generateChasm`: while a chasm runs, append a chasm tile to each row
      from the ground height down and count down; with an idle counter, the
      roll may start a new chasm and nothing is appended. */
  method GenerateChasm(tiles: seq<seq<Tile>>, x: int, height: int, tileSet: int, topperSet: int, counter: int, d: ColumnDraw)
    returns (r: seq<seq<Tile>>, next: int)
    requires |tiles| >= height && ValidDraw(d)
    ensures next == NextCounter(counter, d)
    ensures counter != 0 ==> next == counter - 1
    ensures counter == 0 ==> next == 0 || MinChasmWidth <= next <= MaxChasmWidth
    ensures |r| == |tiles|
    ensures forall y :: 0 <= y < |tiles| ==>
              r[y] == if counter != 0 && GroundHeight <= y < height then tiles[y] + [EmptyTile(x, y, tileSet, topperSet)]
                      else tiles[y]
  {
    r := tiles;
    next := counter;
    if counter != 0 {
      var y := GroundHeight;
      while y < height
        invariant GroundHeight <= y <= if height < GroundHeight then GroundHeight else height
        invariant |r| == |tiles|
        invariant forall k :: 0 <= k < |tiles| ==>
                    r[k] == if GroundHeight <= k < y then tiles[k] + [EmptyTile(x, k, tileSet, topperSet)] else tiles[k]
      {
        r := r[y := r[y] + [EmptyTile(x, y, tileSet, topperSet)]];
        y := y + 1;
      }
      next := next - 1;
    } else if d.chasm {
      next := d.chasmWidth;
    }
  }

  /** `tiles[y][x] = t` on a JavaScript array whose length is at least x:
      overwrite index x, or grow the row by one when x is its length. */
  function SetAt(row: seq<Tile>, x: nat, t: Tile): (r: seq<Tile>)
    requires x <= |row|
    ensures |r| == if x < |row| then |row| else |row| + 1
    ensures r[x] == t
    ensures forall j :: 0 <= j < |row| && j != x ==> r[j] == row[j]
  {
    if x < |row| then row[x := t] else row + [t]
  }

  /** `generateColumn`: write ground tiles at column x from the column's
      top row (the pillar height for a pillar) down to the last row; the top
      tile carries the topper. */
  method GenerateColumn(tiles: seq<seq<Tile>>, x: nat, height: int, tileSet: int, topperSet: int, d: ColumnDraw)
    returns (r: seq<seq<Tile>>)
    requires 0 <= ColumnStart(d) && |tiles| >= height
    requires forall y :: ColumnStart(d) <= y < height ==> x <= |tiles[y]|
    ensures |r| == |tiles|
    ensures forall y :: 0 <= y < |tiles| ==>
              r[y] == if ColumnStart(d) <= y < height then SetAt(tiles[y], x, GroundTile(x, y, ColumnStart(d), tileSet, topperSet))
                      else tiles[y]
  {
    var columnStart := if d.pillar then d.pillarHeight else GroundHeight;
    r := tiles;
    var y := columnStart;
    while y < height
      invariant columnStart <= y <= if height < columnStart then columnStart else height
      invariant |r| == |tiles|
      invariant forall k :: 0 <= k < |tiles| ==>
                  r[k] == if columnStart <= k < y then SetAt(tiles[k], x, GroundTile(x, k, columnStart, tileSet, topperSet)) else tiles[k]
    {
      r := r[y := SetAt(r[y], x, GroundTile(x, y, columnStart, tileSet, topperSet))];
      y := y + 1;
    }
  }

  /** `generateLevel`: for each column, sky above the ground height, the
      chasm step, and a ground column unless a chasm is running. The tile
      set and topper set are the level's two draws, `draws[x]` the draws of
      column x. */
  method GenerateLevel(width: nat, height: nat, tileSet: int, topperSet: int, draws: seq<ColumnDraw>) returns (m: Tilemap)
    requires height >= GroundHeight
    requires 0 <= tileSet < TileSetCount && 0 <= topperSet < TopperSetCount
    requires |draws| == width && ValidDraws(draws)
    ensures m == Level(draws, width, height, tileSet, topperSet)
  {
    var tiles := InitializeTilemap(height);
    var counter := 0;
    var x := 0;
    while x < width
      invariant 0 <= x <= width
      invariant |tiles| == height
      invariant counter == CounterBefore(draws, x)
      invariant forall y :: 0 <= y < height ==> tiles[y] == LevelRow(draws, x, y, tileSet, topperSet)
    {
      ghost var before := tiles;
      tiles := GenerateEmptySpace(tiles, x, tileSet, topperSet);
      tiles, counter := GenerateChasm(tiles, x, height, tileSet, topperSet, counter, draws[x]);
      assert counter == CounterBefore(draws, x + 1);
      ghost var afterChasm := tiles;
      if counter > 0 {
        x := x + 1;
        ColumnRowsSkipped(draws, x - 1, height, tileSet, topperSet, before, tiles);
        continue;
      }
      CounterInRange(draws, x);
      forall y | ColumnStart(draws[x]) <= y < height
        ensures x <= |tiles[y]|
      {
        assert ValidDraw(draws[x]);
        if y >= GroundHeight {
          LowerRowLength(draws, x, y, tileSet, topperSet);
        }
      }
      tiles := GenerateColumn(tiles, x, height, tileSet, topperSet, draws[x]);
      ColumnRowsBuilt(draws, x, height, tileSet, topperSet, before, afterChasm, tiles);
      x := x + 1;
    }
    m := NewTilemap(width, height, tiles);
    assert tiles == seq(height, y requires 0 <= y < height => LevelRow(draws, width, y, tileSet, topperSet));
  }

  /** The rows after a column that starts or continues a chasm. */
  lemma ColumnRowsSkipped(draws: seq<ColumnDraw>, x: nat, height: nat, tileSet: int, topperSet: int,
                          before: seq<seq<Tile>>, after: seq<seq<Tile>>)
    requires ValidDraws(draws) && x < |draws| && height >= GroundHeight
    requires CounterBefore(draws, x + 1) > 0
    requires |before| == height && |after| == height
    requires forall y :: 0 <= y < height ==> before[y] == LevelRow(draws, x, y, tileSet, topperSet)
    requires forall y :: 0 <= y < GroundHeight ==> after[y] == before[y] + [EmptyTile(x, y, tileSet, topperSet)]
    requires forall y :: GroundHeight <= y < height ==>
               after[y] == if CounterBefore(draws, x) != 0 then before[y] + [EmptyTile(x, y, tileSet, topperSet)] else before[y]
    ensures forall y :: 0 <= y < height ==> after[y] == LevelRow(draws, x + 1, y, tileSet, topperSet)
  {
    forall y | 0 <= y < height
      ensures after[y] == LevelRow(draws, x + 1, y, tileSet, topperSet)
    {
      if y < GroundHeight {
        assert UpperRow(draws, x + 1, y, tileSet, topperSet) == UpperRow(draws, x, y, tileSet, topperSet) + [EmptyTile(x, y, tileSet, topperSet)];
      }
    }
  }

  /** The rows after a column that gets a ground column. */
  lemma ColumnRowsBuilt(draws: seq<ColumnDraw>, x: nat, height: nat, tileSet: int, topperSet: int,
                        before: seq<seq<Tile>>, afterChasm: seq<seq<Tile>>, after: seq<seq<Tile>>)
    requires ValidDraws(draws) && x < |draws| && height >= GroundHeight
    requires CounterBefore(draws, x + 1) == 0
    requires |before| == height && |afterChasm| == height && |after| == height
    requires forall y :: 0 <= y < height ==> before[y] == LevelRow(draws, x, y, tileSet, topperSet)
    requires forall y :: 0 <= y < GroundHeight ==> afterChasm[y] == before[y] + [EmptyTile(x, y, tileSet, topperSet)]
    requires forall y :: GroundHeight <= y < height ==>
               afterChasm[y] == if CounterBefore(draws, x) != 0 then before[y] + [EmptyTile(x, y, tileSet, topperSet)] else before[y]
    requires forall y :: ColumnStart(draws[x]) <= y < height ==> x <= |afterChasm[y]|
    requires forall y :: 0 <= y < height ==>
               after[y] == if ColumnStart(draws[x]) <= y < height
                           then SetAt(afterChasm[y], x, GroundTile(x, y, ColumnStart(draws[x]), tileSet, topperSet))
                           else afterChasm[y]
    ensures forall y :: 0 <= y < height ==> after[y] == LevelRow(draws, x + 1, y, tileSet, topperSet)
  {
    var start := ColumnStart(draws[x]);
    assert ValidDraw(draws[x]);
    CounterInRange(draws, x);
    forall y | 0 <= y < height
      ensures after[y] == LevelRow(draws, x + 1, y, tileSet, topperSet)
    {
      if y < GroundHeight {
        var old_ := UpperRow(draws, x, y, tileSet, topperSet);
        var new_ := UpperRow(draws, x + 1, y, tileSet, topperSet);
        assert |afterChasm[y]| == x + 1;
        if start <= y {
          assert after[y] == (old_ + [EmptyTile(x, y, tileSet, topperSet)])[x := GroundTile(x, y, start, tileSet, topperSet)];
          assert after[y] == old_ + [GroundTile(x, y, start, tileSet, topperSet)];
        }
        assert new_ == old_ + [UpperTile(draws, x, y, tileSet, topperSet)];
      } else {
        LowerRowLength(draws, x, y, tileSet, topperSet);
        assert |afterChasm[y]| == x;
      }
    }
  }

  // ---------------------------------------------------------------------
  // The sprite index of `generateSprites`

  /** The sheet cell (column, row) a sprite is cut from; its pixel origin is
      the cell times the tile size. */
  datatype Cell = Cell(x: int, y: int)

  /** One row of a tile set: `sizeX` cells from column x0. */
  function SheetRow(x0: int, y: int, sizeX: nat): (r: seq<Cell>)
  {
    seq(sizeX, c requires 0 <= c < sizeX => Cell(x0 + c, y))
  }

  /** The first `rows` rows of the tile set whose top-left cell is (x0, y0),
      row by row. */
  function SheetBlock(x0: int, y0: int, sizeX: nat, rows: nat): seq<Cell>
  {
    if rows == 0 then [] else SheetBlock(x0, y0, sizeX, rows - 1) + SheetRow(x0, y0 + rows - 1, sizeX)
  }

  /** The tile sets of the first `rows` rows of sets, each row left to
      right. */
  function SheetSets(setsX: nat, sizeX: nat, sizeY: nat, rows: nat): seq<seq<Cell>>
  {
    if rows == 0 then []
    else
      SheetSets(setsX, sizeX, sizeY, rows - 1)
      + seq(setsX, tx requires 0 <= tx < setsX => SheetBlock(sizeX * tx, sizeY * (rows - 1), sizeX, sizeY))
  }

  /** Cell c of row r of a tile set sits at index r * sizeX + c. */
  lemma {:induction false} SheetBlockAt(x0: int, y0: int, sizeX: nat, rows: nat, r: nat, c: nat)
    requires r < rows && c < sizeX
    ensures |SheetBlock(x0, y0, sizeX, rows)| == rows * sizeX
    ensures r * sizeX + c < rows * sizeX
    ensures SheetBlock(x0, y0, sizeX, rows)[r * sizeX + c] == Cell(x0 + c, y0 + r)
  {
    SheetBlockLength(x0, y0, sizeX, rows - 1);
    assert rows * sizeX == (rows - 1) * sizeX + sizeX;
    if r < rows - 1 {
      SheetBlockAt(x0, y0, sizeX, rows - 1, r, c);
    } else {
      assert r * sizeX + c == |SheetBlock(x0, y0, sizeX, rows - 1)| + c;
    }
  }

  lemma {:induction false} SheetBlockLength(x0: int, y0: int, sizeX: nat, rows: nat)
    ensures |SheetBlock(x0, y0, sizeX, rows)| == rows * sizeX
  {
    if rows > 0 {
      SheetBlockLength(x0, y0, sizeX, rows - 1);
      assert rows * sizeX == (rows - 1) * sizeX + sizeX;
    }
  }

  /** Set (tx, ty) of the sheet sits at index ty * setsX + tx: the counter of
      `generateSprites` runs along each row of sets before moving down. */
  lemma {:induction false} SheetSetsAt(setsX: nat, sizeX: nat, sizeY: nat, rows: nat, ty: nat, tx: nat)
    requires ty < rows && tx < setsX
    ensures |SheetSets(setsX, sizeX, sizeY, rows)| == rows * setsX
    ensures ty * setsX + tx < rows * setsX
    ensures SheetSets(setsX, sizeX, sizeY, rows)[ty * setsX + tx] == SheetBlock(sizeX * tx, sizeY * ty, sizeX, sizeY)
  {
    SheetSetsLength(setsX, sizeX, sizeY, rows - 1);
    assert rows * setsX == (rows - 1) * setsX + setsX;
    if ty < rows - 1 {
      SheetSetsAt(setsX, sizeX, sizeY, rows - 1, ty, tx);
    } else {
      assert ty * setsX + tx == |SheetSets(setsX, sizeX, sizeY, rows - 1)| + tx;
    }
  }

  lemma {:induction false} SheetSetsLength(setsX: nat, sizeX: nat, sizeY: nat, rows: nat)
    ensures |SheetSets(setsX, sizeX, sizeY, rows)| == rows * setsX
  {
    if rows > 0 {
      SheetSetsLength(setsX, sizeX, sizeY, rows - 1);
      assert rows * setsX == (rows - 1) * setsX + setsX;
    }
  }

  /** `generateSprites`: one list per tile set, the sets row by row of sets
      and left to right, each list holding its set's cells row by row. */
  method GenerateSprites(setsX: nat, setsY: nat, sizeX: nat, sizeY: nat) returns (tileSets: seq<seq<Cell>>)
    ensures tileSets == SheetSets(setsX, sizeX, sizeY, setsY)
  {
    tileSets := [];
    var counter := -1;
    var tileSetY := 0;
    while tileSetY < setsY
      invariant 0 <= tileSetY <= setsY
      invariant tileSets == SheetSets(setsX, sizeX, sizeY, tileSetY)
      invariant counter == |tileSets| - 1
    {
      var tileSetX := 0;
      while tileSetX < setsX
        invariant 0 <= tileSetX <= setsX
        invariant tileSets == SheetSets(setsX, sizeX, sizeY, tileSetY)
                              + seq(tileSetX, tx requires 0 <= tx < tileSetX => SheetBlock(sizeX * tx, sizeY * tileSetY, sizeX, sizeY))
        invariant counter == |tileSets| - 1
      {
        tileSets := tileSets + [[]];
        counter := counter + 1;
        var y := sizeY * tileSetY;
        while y < sizeY * tileSetY + sizeY
          invariant sizeY * tileSetY <= y <= sizeY * tileSetY + sizeY
          invariant |tileSets| == counter + 1
          invariant tileSets[counter] == SheetBlock(sizeX * tileSetX, sizeY * tileSetY, sizeX, y - sizeY * tileSetY)
          invariant tileSets[..counter] == SheetSets(setsX, sizeX, sizeY, tileSetY)
                                           + seq(tileSetX, tx requires 0 <= tx < tileSetX => SheetBlock(sizeX * tx, sizeY * tileSetY, sizeX, sizeY))
        {
          var x := sizeX * tileSetX;
          while x < sizeX * tileSetX + sizeX
            invariant sizeX * tileSetX <= x <= sizeX * tileSetX + sizeX
            invariant |tileSets| == counter + 1
            invariant tileSets[counter] == SheetBlock(sizeX * tileSetX, sizeY * tileSetY, sizeX, y - sizeY * tileSetY)
                                           + SheetRow(sizeX * tileSetX, y, x - sizeX * tileSetX)
            invariant tileSets[..counter] == SheetSets(setsX, sizeX, sizeY, tileSetY)
                                             + seq(tileSetX, tx requires 0 <= tx < tileSetX => SheetBlock(sizeX * tx, sizeY * tileSetY, sizeX, sizeY))
          {
            tileSets := tileSets[counter := tileSets[counter] + [Cell(x, y)]];
            x := x + 1;
          }
          y := y + 1;
        }
        tileSetX := tileSetX + 1;
      }
      tileSetY := tileSetY + 1;
    }
  }
}
