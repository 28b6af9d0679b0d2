/** The tile map of the lighting example: the atlas is cut into 32x32 cells,
    a 20x11 grid of tiles is filled row by row with wall, top-wall and ground
    tiles chosen at random from their cells, four animated fire tiles replace
    four ground tiles, and every frame only the fire tiles are updated. */
module TileMap {
  import opened Framework
  import opened VirtualTextures
  import opened GameObjects

  const CellSize: int := 32
  const NumWallTextures: nat := 3
  const NumGroundTextures: nat := 4
  const NumTopWallTextures: nat := 3
  const NumFireFrames: nat := 4

  /** Atlas rows, in pixels: walls, ground, top walls, fire frames. */
  const WallRow: int := 0
  const GroundRow: int := 32
  const TopWallRow: int := 64
  const FireRow: int := 96

  /** The back buffer is 640x360, so the grid has 20 columns and 11 rows. */
  const BackBufferWidth: int := 640
  const BackBufferHeight: int := 360
  const ColumnCount: nat := BackBufferWidth / CellSize
  const RowCount: nat := BackBufferHeight / CellSize

  const FireDelay: real := 0.15

  /** The root region of a loaded atlas texture. */
  predicate IsAtlas(atlas: VirtualTexture) {
    IsInt32(atlas.texture.width) && IsInt32(atlas.texture.height)
    && atlas == FromTexture(atlas.texture)
  }

  /** The region of cell `i` in the atlas row at pixel offset `y`, as the
      slicing loops request it. */
  function Cell(atlas: VirtualTexture, i: int, y: int): (v: VirtualTexture)
    requires IsAtlas(atlas) && 0 <= i < 4 && 0 <= y <= FireRow
    ensures v.texture == atlas.texture && v.width == CellSize && v.height == CellSize
  {
    Derive(atlas, i * CellSize, y, CellSize, CellSize)
  }

  /** When the atlas holds the whole 4x4 block of cells, every requested cell
      is exactly its 32x32 square, unclipped, and lies inside the atlas. */
  lemma CellUnclipped(atlas: VirtualTexture, i: int, y: int)
    requires IsAtlas(atlas) && 0 <= i < 4 && 0 <= y <= FireRow
    requires atlas.texture.width >= 4 * CellSize && atlas.texture.height >= y + CellSize
    ensures Cell(atlas, i, y).source == Rect(i * CellSize, y, CellSize, CellSize)
    ensures ValidRegion(Cell(atlas, i, y))
  {
    RelativeWithoutClipping(atlas.source, i * CellSize, y, CellSize, CellSize);
  }

  /** The first `count` cells of the atlas row at offset `y`. */
  function AtlasRow(atlas: VirtualTexture, count: nat, y: int): (cells: seq<VirtualTexture>)
    requires IsAtlas(atlas) && count <= 4 && 0 <= y <= FireRow
    ensures |cells| == count
    ensures forall i :: 0 <= i < count ==> cells[i] == Cell(atlas, i, y)
  {
    seq(count, i requires 0 <= i < count => Cell(atlas, i, y))
  }

  /** One slicing loop: `count` cells of the atlas row at offset `y`. */
  method SliceRow(atlas: VirtualTexture, count: nat, y: int) returns (regions: array<VirtualTexture>)
    requires IsAtlas(atlas) && count <= 4 && 0 <= y <= FireRow
    ensures fresh(regions) && regions[..] == AtlasRow(atlas, count, y)
  {
    regions := new VirtualTexture[count];
    for i := 0 to count
      invariant forall j :: 0 <= j < i ==> regions[j] == Cell(atlas, j, y)
    {
      regions[i] := Derive(atlas, i * CellSize, y, CellSize, CellSize);
    }
    assert regions[..] == AtlasRow(atlas, count, y);
  }

  /** `Random.Next(minValue, maxValue)`, abstracted to an arbitrary choice:
      a value in [minValue, maxValue), or minValue when the range is empty. */
  method RandomNext(minValue: int, maxValue: int) returns (r: int)
    requires minValue <= maxValue
    ensures minValue == maxValue ==> r == minValue
    ensures minValue < maxValue ==> minValue <= r < maxValue
  {
    if minValue == maxValue {
      r := minValue;
    } else {
      r :| minValue <= r < maxValue;
    }
  }

  // ---------------------------------------------------------------------
  // The grid

  datatype TileClass = Wall | TopWall | Ground

  /** The left and right columns and the bottom row are walls; the rest of the
      top row is top wall; everything else is ground. */
  function Classify(row: int, column: int): (c: TileClass)
    ensures 0 <= row < RowCount && 0 <= column < ColumnCount ==>
              (c == Ground <==> 1 <= row < RowCount - 1 && 1 <= column < ColumnCount - 1)
              && (c == TopWall <==> row == 0 && 1 <= column < ColumnCount - 1)
  {
    if column == 0 || column == ColumnCount - 1 || row == RowCount - 1 then Wall
    else if row == 0 then TopWall
    else Ground
  }

  /** The regions a tile of class `c` picks from. */
  function Palette(c: TileClass, wall: seq<VirtualTexture>, topWall: seq<VirtualTexture>,
                   ground: seq<VirtualTexture>): seq<VirtualTexture>
  {
    match c
    case Wall => wall
    case TopWall => topWall
    case Ground => ground
  }

  /** The screen position of the tile in `row`, `column`. */
  function TilePosition(row: int, column: int): Vec2 {
    Vec2((column * CellSize) as real, (row * CellSize) as real)
  }

  /** The row-major index of a grid cell and its inverse. */
  lemma {:induction false} GridIndex(row: int, column: int)
    requires 0 <= row && 0 <= column < ColumnCount
    ensures (row * ColumnCount + column) / ColumnCount == row
    ensures (row * ColumnCount + column) % ColumnCount == column
  {
    ModUnique(row * ColumnCount + column, ColumnCount, row, column);
  }

  /** The grid slot `k` holds a fresh static tile at its cell's position whose
      region comes from the palette of its cell's class. */
  ghost predicate PlacedTile(t: GameObject?, k: int, wall: seq<VirtualTexture>, topWall: seq<VirtualTexture>,
                             ground: seq<VirtualTexture>)
    reads t
  {
    var row, column := k / ColumnCount, k % ColumnCount;
    t != null && t.kind.StaticTile?
    && t.position == TilePosition(row, column)
    && t.State() == Fresh
    && t.kind.region in Palette(Classify(row, column), wall, topWall, ground)
  }

  /** The body of the grid loop: a new static tile at the cell's position,
      with a region picked at random from its class's array. */
  method NewGridTile(row: int, column: int, wall: array<VirtualTexture>, topWall: array<VirtualTexture>,
                     ground: array<VirtualTexture>) returns (tile: GameObject)
    requires wall.Length > 0 && topWall.Length > 0 && ground.Length > 0
    ensures fresh(tile) && tile.kind.StaticTile?
    ensures tile.position == TilePosition(row, column) && tile.State() == Fresh
    ensures tile.kind.region in Palette(Classify(row, column), wall[..], topWall[..], ground[..])
  {
    var tilePos := TilePosition(row, column);
    if column == 0 || column == ColumnCount - 1 || row == RowCount - 1 {
      var pick := RandomNext(0, wall.Length);
      tile := new GameObject.Tile(tilePos, wall[pick]);
    } else {
      if row == 0 {
        var pick := RandomNext(0, topWall.Length);
        tile := new GameObject.Tile(tilePos, topWall[pick]);
      } else {
        var pick := RandomNext(0, ground.Length);
        tile := new GameObject.Tile(tilePos, ground[pick]);
      }
    }
  }

  /** Row `row` of the grid ends inside the grid. */
  lemma RowFits(row: int)
    requires 0 <= row < RowCount
    ensures (row + 1) * ColumnCount <= ColumnCount * RowCount
  {
  }

  /** The slots before `upTo` hold fresh tiles, each placed for its cell. */
  ghost predicate FilledUpTo(tiles: array<GameObject?>, upTo: int, wall: seq<VirtualTexture>,
                             topWall: seq<VirtualTexture>, ground: seq<VirtualTexture>)
    reads tiles, tiles[..]
  {
    0 <= upTo <= tiles.Length
    && forall k :: 0 <= k < upTo ==> PlacedTile(tiles[k], k, wall, topWall, ground)
  }

  /** The inner, column loop of the grid: fills the slots of one row in order
      with new tiles, leaving every other slot as it was. */
  method FillRow(tiles: array<GameObject?>, row: int, wall: array<VirtualTexture>,
                 topWall: array<VirtualTexture>, ground: array<VirtualTexture>)
    requires wall.Length > 0 && topWall.Length > 0 && ground.Length > 0
    requires 0 <= row && (row + 1) * ColumnCount <= tiles.Length
    requires FilledUpTo(tiles, row * ColumnCount, wall[..], topWall[..], ground[..])
    modifies tiles
    ensures FilledUpTo(tiles, (row + 1) * ColumnCount, wall[..], topWall[..], ground[..])
    ensures forall k :: 0 <= k < tiles.Length && !(row * ColumnCount <= k < (row + 1) * ColumnCount) ==>
              tiles[k] == old(tiles[k])
    ensures forall k :: row * ColumnCount <= k < (row + 1) * ColumnCount ==> fresh(tiles[k])
  {
    var tileIndex := row * ColumnCount;
    for column := 0 to ColumnCount
      invariant tileIndex == row * ColumnCount + column
      invariant FilledUpTo(tiles, tileIndex, wall[..], topWall[..], ground[..])
      invariant forall k :: 0 <= k < tiles.Length && !(row * ColumnCount <= k < tileIndex) ==>
                  tiles[k] == old(tiles[k])
      invariant forall k :: row * ColumnCount <= k < tileIndex ==> fresh(tiles[k])
    {
      var tile := NewGridTile(row, column, wall, topWall, ground);
      GridIndex(row, column);
      tiles[tileIndex] := tile;
      tileIndex := tileIndex + 1;
    }
  }

  /** The nested row and column loops: every index of the grid is visited
      once, in row-major order, and gets a new tile. */
  method FillGrid(wall: array<VirtualTexture>, topWall: array<VirtualTexture>, ground: array<VirtualTexture>)
    returns (tiles: array<GameObject?>)
    requires wall.Length > 0 && topWall.Length > 0 && ground.Length > 0
    ensures fresh(tiles) && tiles.Length == ColumnCount * RowCount
    ensures forall k :: 0 <= k < tiles.Length ==>
              fresh(tiles[k]) && PlacedTile(tiles[k], k, wall[..], topWall[..], ground[..])
  {
    tiles := new GameObject?[ColumnCount * RowCount];
    for row := 0 to RowCount
      invariant FilledUpTo(tiles, row * ColumnCount, wall[..], topWall[..], ground[..])
      invariant forall k :: 0 <= k < row * ColumnCount ==> fresh(tiles[k])
    {
      RowFits(row);
      FillRow(tiles, row, wall, topWall, ground);
    }
  }

  // ---------------------------------------------------------------------
  // The fire tiles

  /** The grid slot each fire tile overwrites. */
  function FireIndex(i: int): int
    requires 0 <= i < 4
  {
    [42, 57, 162, 177][i]
  }

  /** The position each fire tile is constructed with. */
  function FirePosition(i: int): Vec2
    requires 0 <= i < 4
  {
    [Vec2(64.0, 64.0), Vec2(544.0, 64.0), Vec2(64.0, 256.0), Vec2(544.0, 256.0)][i]
  }

  /** The fire tiles overwrite four distinct ground cells, and each is
      constructed at exactly the position of the cell it overwrites. */
  lemma FireTilesOnGroundCells(i: int)
    requires 0 <= i < 4
    ensures 0 <= FireIndex(i) < ColumnCount * RowCount
    ensures Classify(FireIndex(i) / ColumnCount, FireIndex(i) % ColumnCount) == Ground
    ensures TilePosition(FireIndex(i) / ColumnCount, FireIndex(i) % ColumnCount) == FirePosition(i)
    ensures forall j :: 0 <= j < 4 && j != i ==> FireIndex(j) != FireIndex(i)
  {
    assert ColumnCount == 20 && RowCount == 11;
    if i == 0 {
      GridIndex(2, 2);
    } else if i == 1 {
      GridIndex(2, 17);
    } else if i == 2 {
      GridIndex(8, 2);
    } else {
      GridIndex(8, 17);
    }
  }

  /** `k` is one of the grid slots a fire tile overwrites. */
  predicate IsFireIndex(k: int) {
    exists i :: 0 <= i < 4 && FireIndex(i) == k
  }

  /** One fire-tile line of the loader: a new animated tile of the fire
      frames goes into fire slot `i` of the grid and of the fire list. */
  method PlaceFire(grid: array<GameObject?>, fires: array<GameObject?>, i: int,
                   fireFrames: seq<VirtualTexture>, delay: real, position: Vec2)
    requires grid != fires && grid.Length == ColumnCount * RowCount && fires.Length == 4 && 0 <= i < 4
    modifies grid, fires
    ensures forall k :: 0 <= k < grid.Length && k != FireIndex(i) ==> grid[k] == old(grid[k])
    ensures forall j :: 0 <= j < 4 && j != i ==> fires[j] == old(fires[j])
    ensures fires[i] != null && fresh(fires[i]) && fires[i] == grid[FireIndex(i)]
    ensures fires[i].kind == Animated(fireFrames, delay) && fires[i].position == position
    ensures fires[i].State() == Fresh && fires[i].Valid()
  {
    var tile := new GameObject.AnimatedTile(fireFrames, delay, position);
    grid[FireIndex(i)] := tile;
    fires[i] := tile;
  }

  /** Creates the four fire tiles, all sharing the fire frames and the same
      delay, and stores each both in its grid slot and in the fire list. */
  method PlaceFires(grid: array<GameObject?>, fireFrames: seq<VirtualTexture>) returns (fires: array<GameObject?>)
    requires grid.Length == ColumnCount * RowCount
    modifies grid
    ensures fresh(fires) && fires.Length == 4
    ensures forall k :: 0 <= k < grid.Length && !IsFireIndex(k) ==> grid[k] == old(grid[k])
    ensures forall k :: 0 <= k < grid.Length && IsFireIndex(k) ==> grid[k] != null
    ensures forall i :: 0 <= i < 4 ==>
              fires[i] != null && fresh(fires[i]) && fires[i] == grid[FireIndex(i)]
              && fires[i].kind == Animated(fireFrames, FireDelay)
              && fires[i].position == FirePosition(i)
              && fires[i].State() == Fresh && fires[i].Valid()
    ensures forall i, j :: 0 <= i < j < 4 ==> fires[i] != fires[j]
  {
    fires := new GameObject?[4];
    var delay := FireDelay;
    PlaceFire(grid, fires, 0, fireFrames, delay, Vec2(64.0, 64.0));
    PlaceFire(grid, fires, 1, fireFrames, delay, Vec2(544.0, 64.0));
    PlaceFire(grid, fires, 2, fireFrames, delay, Vec2(64.0, 256.0));
    PlaceFire(grid, fires, 3, fireFrames, delay, Vec2(544.0, 256.0));
  }

  class Game {
    var tiles: array<GameObject?>
    var fireTiles: array<GameObject?>

    /** The shape Update relies on: a full grid, four distinct animated fire
        tiles that are the very objects in their grid slots, and static tiles
        everywhere else. */
    ghost predicate Valid()
      reads this, tiles, fireTiles, set i | 0 <= i < fireTiles.Length :: fireTiles[i]
    {
      tiles.Length == ColumnCount * RowCount && fireTiles.Length == 4
      && (forall k :: 0 <= k < tiles.Length ==> tiles[k] != null)
      && (forall k :: 0 <= k < tiles.Length && !IsFireIndex(k) ==> tiles[k] != null && tiles[k].kind.StaticTile?)
      && (forall i :: 0 <= i < 4 ==>
            fireTiles[i] != null && fireTiles[i] == tiles[FireIndex(i)]
            && fireTiles[i].kind.Animated? && |fireTiles[i].kind.frames| > 0 && fireTiles[i].Valid())
      && (forall i, j :: 0 <= i < j < 4 ==> fireTiles[i] != fireTiles[j])
    }

    /** The tile-map part of `LoadContent`, given the root region of the
        loaded atlas texture. */
    constructor LoadContent(atlas: VirtualTexture)
      requires IsAtlas(atlas)
      ensures fresh(tiles) && fresh(fireTiles)
      ensures forall k :: 0 <= k < tiles.Length ==> fresh(tiles[k])
      ensures Valid()
      ensures forall k :: 0 <= k < tiles.Length && !IsFireIndex(k) ==>
                PlacedTile(tiles[k], k, AtlasRow(atlas, NumWallTextures, WallRow),
                           AtlasRow(atlas, NumTopWallTextures, TopWallRow),
                           AtlasRow(atlas, NumGroundTextures, GroundRow))
      ensures forall i :: 0 <= i < 4 ==>
                fireTiles[i].kind == Animated(AtlasRow(atlas, NumFireFrames, FireRow), FireDelay)
                && fireTiles[i].position == FirePosition(i)
                && fireTiles[i].State() == Fresh
    {
      var wallTextures := SliceRow(atlas, NumWallTextures, WallRow);
      var groundTextures := SliceRow(atlas, NumGroundTextures, GroundRow);
      var topWallTextures := SliceRow(atlas, NumTopWallTextures, TopWallRow);
      var fireFrames := SliceRow(atlas, NumFireFrames, FireRow);

      var grid := FillGrid(wallTextures, topWallTextures, groundTextures);

      var fires := PlaceFires(grid, fireFrames[..]);
      tiles := grid;
      fireTiles := fires;
    }

    /** Updates exactly the four fire tiles, in order; the tile grid and every
        other tile are left as they were. */
    method Update(dt: real)
      requires Valid()
      modifies set i | 0 <= i < fireTiles.Length :: fireTiles[i]
      ensures Valid()
      ensures forall i :: 0 <= i < 4 ==>
                fireTiles[i].position == old(fireTiles[i].position)
                && fireTiles[i].State()
                   == Step(old(fireTiles[i].State()), |fireTiles[i].kind.frames|, fireTiles[i].kind.delay, dt)
      ensures forall k :: 0 <= k < tiles.Length && !IsFireIndex(k) ==> unchanged(tiles[k])
    {
      for i := 0 to fireTiles.Length
        invariant forall j :: 0 <= j < i ==>
                    fireTiles[j].position == old(fireTiles[j].position)
                    && fireTiles[j].State()
                       == Step(old(fireTiles[j].State()), |fireTiles[j].kind.frames|, fireTiles[j].kind.delay, dt)
                    && fireTiles[j].Valid()
        invariant forall j :: i <= j < 4 ==> unchanged(fireTiles[j])
      {
        fireTiles[i].Update(dt);
      }
    }
  }
}
