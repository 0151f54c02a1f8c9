/**
 * The tile-grid editor: a 16 by 16 grid of tile ids, a palette of six tile
 * types, painting by click or by dragging with the mouse held down, and a
 * clear operation. The grid and the selected tile are handed in by the
 * caller; the panel owns only its drawing flag.
 */
module WorldBuilder {

  const GridSize: nat := 16

  type Grid = seq<seq<string>>

  datatype TileType = TileType(id: string, color: string, caption: string)

  const TileTypes: seq<TileType> := [
    TileType("empty", "bg-transparent", "橡皮擦"),
    TileType("wall", "bg-slate-700", "墙壁"),
    TileType("grass", "bg-green-600", "草地"),
    TileType("water", "bg-blue-500", "水域"),
    TileType("lava", "bg-orange-600", "岩浆"),
    TileType("goal", "bg-yellow-400", "终点")
  ]

  /** The colour of a cell whose id is not in the palette. */
  const UnknownTileColor: string := "bg-slate-900"

  datatype Builder = Builder(grid: Grid, selectedTile: string, drawing: bool)

  /** A freshly mounted editor: the caller's grid and tile, not drawing. */
  function Mount(grid: Grid, selectedTile: string): (b: Builder)
    ensures b.grid == grid && b.selectedTile == selectedTile && !b.drawing
  {
    Builder(grid, selectedTile, false)
  }

  /** A grid of `GridSize` rows of `GridSize` cells. */
  predicate WellShaped(g: Grid) {
    |g| == GridSize && forall r :: 0 <= r < |g| ==> |g[r]| == GridSize
  }

  /** The same number of rows, each of the same length. */
  predicate SameShape(g: Grid, h: Grid) {
    |g| == |h| && forall r :: 0 <= r < |g| ==> |g[r]| == |h[r]|
  }

  /**
   * `handleTileClick`: a new grid in which cell `(row, col)` holds `tile` and
   * every other cell is as before. The given grid is not changed: the outer
   * list and the painted row are copies.
   */
  function Paint(g: Grid, row: nat, col: nat, tile: string): (h: Grid)
    requires row < |g| && col < |g[row]|
    ensures SameShape(g, h)
    ensures h[row][col] == tile
    ensures forall r, c :: 0 <= r < |g| && 0 <= c < |g[r]| && (r != row || c != col) ==> h[r][c] == g[r][c]
  {
    g[row := g[row][col := tile]]
  }

  lemma PaintKeepsWellShaped(g: Grid, row: nat, col: nat, tile: string)
    requires WellShaped(g) && row < GridSize && col < GridSize
    ensures WellShaped(Paint(g, row, col, tile))
  {
  }

  /** Painting the tile a cell already holds gives back the same grid. */
  lemma PaintSameTile(g: Grid, row: nat, col: nat)
    requires row < |g| && col < |g[row]|
    ensures Paint(g, row, col, g[row][col]) == g
  {
    var h := Paint(g, row, col, g[row][col]);
    assert forall r :: 0 <= r < |g| ==> h[r] == g[r];
  }

  /** The clear button: every cell of a 16 by 16 grid is `empty`. */
  function EmptyGrid(): (g: Grid)
    ensures WellShaped(g)
    ensures forall r, c :: 0 <= r < GridSize && 0 <= c < GridSize ==> g[r][c] == "empty"
  {
    seq(GridSize, _ => seq(GridSize, _ => "empty"))
  }

  /** Pressing the mouse on a cell paints it; the press then reaches the grid, which starts drawing. */
  function PressCell(b: Builder, row: nat, col: nat): (r: Builder)
    requires row < |b.grid| && col < |b.grid[row]|
    ensures r.drawing && r.selectedTile == b.selectedTile
    ensures r.grid == Paint(b.grid, row, col, b.selectedTile)
  {
    Builder(Paint(b.grid, row, col, b.selectedTile), b.selectedTile, true)
  }

  /** Pressing the mouse on the grid between cells only starts drawing. */
  function PressGrid(b: Builder): (r: Builder)
    ensures r.drawing && r.grid == b.grid && r.selectedTile == b.selectedTile
  {
    b.(drawing := true)
  }

  /** `handleMouseEnter`: the entered cell is painted only while drawing. */
  function EnterCell(b: Builder, row: nat, col: nat): (r: Builder)
    requires row < |b.grid| && col < |b.grid[row]|
    ensures r.drawing == b.drawing && r.selectedTile == b.selectedTile
    ensures b.drawing ==> r.grid == Paint(b.grid, row, col, b.selectedTile)
    ensures !b.drawing ==> r.grid == b.grid
  {
    if b.drawing then b.(grid := Paint(b.grid, row, col, b.selectedTile)) else b
  }

  /** Releasing the mouse over the grid, or leaving it, stops drawing. */
  function ReleaseOrLeave(b: Builder): (r: Builder)
    ensures !r.drawing && r.grid == b.grid && r.selectedTile == b.selectedTile
  {
    b.(drawing := false)
  }

  /** A palette button: only the selected tile changes. */
  function SelectTile(b: Builder, id: string): (r: Builder)
    ensures r.selectedTile == id && r.grid == b.grid && r.drawing == b.drawing
  {
    b.(selectedTile := id)
  }

  function ClearCanvas(b: Builder): (r: Builder)
    ensures r.grid == EmptyGrid() && r.selectedTile == b.selectedTile && r.drawing == b.drawing
  {
    b.(grid := EmptyGrid())
  }

  /** After release, moving over cells paints nothing until the mouse is pressed again. */
  lemma NoPaintAfterRelease(b: Builder, row: nat, col: nat)
    requires row < |b.grid| && col < |b.grid[row]|
    ensures EnterCell(ReleaseOrLeave(b), row, col) == ReleaseOrLeave(b)
  {
  }

  /** A press then a drag into another cell paints both cells and nothing else. */
  lemma PressThenDrag(b: Builder, r1: nat, c1: nat, r2: nat, c2: nat)
    requires r1 < |b.grid| && c1 < |b.grid[r1]|
    requires r2 < |b.grid| && c2 < |b.grid[r2]|
    ensures var g := EnterCell(PressCell(b, r1, c1), r2, c2).grid;
      && SameShape(b.grid, g)
      && g[r1][c1] == b.selectedTile && g[r2][c2] == b.selectedTile
      && forall r, c :: 0 <= r < |g| && 0 <= c < |g[r]| && (r != r1 || c != c1) && (r != r2 || c != c2)
           ==> g[r][c] == b.grid[r][c]
  {
    var p := PressCell(b, r1, c1);
    assert p.drawing;
  }

  /** `TILE_TYPES.find(t => t.id === id)?.color`, searched from the front. */
  function FindColor(tiles: seq<TileType>, id: string): (r: string)
    ensures (exists i :: 0 <= i < |tiles| && tiles[i].id == id) ==>
      exists i :: 0 <= i < |tiles| && tiles[i].id == id && r == tiles[i].color
        && forall j :: 0 <= j < i ==> tiles[j].id != id
    ensures (forall i :: 0 <= i < |tiles| ==> tiles[i].id != id) ==> r == ""
  {
    if tiles == [] then ""
    else if tiles[0].id == id then tiles[0].color
    else
      var r := FindColor(tiles[1..], id);
      assert forall i :: 1 <= i < |tiles| ==> tiles[i] == tiles[1..][i - 1];
      r
  }

  /** A usable palette: no two entries share an id and every colour is non-empty. */
  predicate UsablePalette(tiles: seq<TileType>) {
    && (forall i, j :: 0 <= i < j < |tiles| ==> tiles[i].id != tiles[j].id)
    && (forall i :: 0 <= i < |tiles| ==> tiles[i].color != "")
  }

  lemma TileTypesUsable()
    ensures UsablePalette(TileTypes)
  {
  }

  /** In a usable palette the search finds the colour of the entry the id belongs to. */
  function PaletteColor(tiles: seq<TileType>, id: string): (color: string)
    requires UsablePalette(tiles)
    ensures forall i :: 0 <= i < |tiles| && tiles[i].id == id ==> color == tiles[i].color
    ensures (forall i :: 0 <= i < |tiles| ==> tiles[i].id != id) ==> color == UnknownTileColor
  {
    var found := FindColor(tiles, id);
    if found != "" then found else UnknownTileColor
  }

  /** A cell's colour class: the palette colour of its id, or a fixed colour for an unknown id. */
  function CellColor(id: string): (color: string)
    ensures forall i :: 0 <= i < |TileTypes| && TileTypes[i].id == id ==> color == TileTypes[i].color
    ensures (forall i :: 0 <= i < |TileTypes| ==> TileTypes[i].id != id) ==> color == UnknownTileColor
  {
    TileTypesUsable();
    PaletteColor(TileTypes, id)
  }
}
