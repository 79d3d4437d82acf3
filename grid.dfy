/**
 * The resource grid laid over the map: a sparse map from cell coordinates to
 * cell records, a visibility flag, and a map-sized RGBA overlay that is
 * rebuilt from the cells only when they have changed.
 */
module Grid {
  import opened Common
  import opened Text
  import Viewport

  /** A scaled pygame surface attached to a cell, kept as an opaque token. */
  type Image = nat

  /**
   * One modified cell. Both setters write `alpha`, so every stored cell has
   * one; a cell holds a colour, an image or both.
   */
  datatype Cell = Cell(color: Option<Rgb>, alpha: Channel, image: Option<Image>)

  const DefaultCellSize: nat := 10
  const DefaultColorAlpha: Channel := 180
  const DefaultImageAlpha: Channel := 255

  /** `0 <= col < cols and 0 <= row < rows`. */
  predicate InGrid(k: Coord, cols: int, rows: int)
  {
    0 <= k.0 < cols && 0 <= k.1 < rows
  }

  /** The cell whose block holds map pixel `(px, py)`. */
  function Owner(px: int, py: int, cs: nat): Coord
    requires cs > 0
  {
    (px / cs, py / cs)
  }

  /** Pixel `(px, py)` lies in the `cs`×`cs` block drawn at `(k.0*cs, k.1*cs)`. */
  predicate InBlock(px: int, py: int, k: Coord, cs: nat)
  {
    k.0 * cs <= px < k.0 * cs + cs && k.1 * cs <= py < k.1 * cs + cs
  }

  function Paint(color: Rgb, alpha: Channel): Rgba
  {
    Rgba(color.r, color.g, color.b, alpha)
  }

  /** What the rebuilt overlay holds at `(px, py)`: the colour of the owning cell, if it has one. */
  function OverlayPixel(cells: map<Coord, Cell>, cs: nat, px: int, py: int): Rgba
    requires cs > 0
  {
    var k := Owner(px, py, cs);
    if k in cells && cells[k].color.Some? then Paint(cells[k].color.value, cells[k].alpha) else Transparent
  }

  /** A pixel is owned by cell `k` exactly when it lies in `k`'s block. */
  lemma OwnerIffInBlock(px: int, py: int, k: Coord, cs: nat)
    requires cs > 0
    ensures Owner(px, py, cs) == k <==> InBlock(px, py, k, cs)
  {
    DivIffBetween(px, k.0, cs);
    DivIffBetween(py, k.1, cs);
  }

  lemma DivIffBetween(p: int, g: int, cs: nat)
    requires cs > 0
    ensures p / cs == g <==> g * cs <= p < g * cs + cs
  {
    var q := p / cs;
    assert p == q * cs + p % cs && 0 <= p % cs < cs;
    if q < g {
      var t := g - q - 1;
      assert t * cs >= 0;
      assert t * cs == g * cs - q * cs - cs;
    } else if q > g {
      var t := q - g - 1;
      assert t * cs >= 0;
      assert t * cs == q * cs - g * cs - cs;
    }
  }

  /** Every pixel of a coloured cell's block shows that cell's colour and alpha. */
  lemma ColorBlockFilled(cells: map<Coord, Cell>, cs: nat, k: Coord, px: int, py: int)
    requires cs > 0 && k in cells && cells[k].color.Some?
    requires InBlock(px, py, k, cs)
    ensures OverlayPixel(cells, cs, px, py) == Paint(cells[k].color.value, cells[k].alpha)
  {
    OwnerIffInBlock(px, py, k, cs);
  }

  /** A pixel outside the blocks of all coloured cells is transparent. */
  lemma OutsideBlocksTransparent(cells: map<Coord, Cell>, cs: nat, px: int, py: int)
    requires cs > 0
    requires forall k :: k in cells && cells[k].color.Some? ==> !InBlock(px, py, k, cs)
    ensures OverlayPixel(cells, cs, px, py) == Transparent
  {
    var k := Owner(px, py, cs);
    OwnerIffInBlock(px, py, k, cs);
  }

  /** The block of an in-grid cell lies inside the map. */
  lemma BlockInsideMap(k: int, cs: nat, mapDim: nat)
    requires cs > 0 && 0 <= k < mapDim / cs
    ensures 0 <= k * cs && k * cs + cs <= mapDim
  {
    var n := mapDim / cs;
    assert mapDim == n * cs + mapDim % cs && 0 <= mapDim % cs;
    var t := n - k - 1;
    assert t * cs >= 0 && k * cs >= 0;
    assert t * cs == n * cs - k * cs - cs;
  }

  /** The overlay as far as the cells in `done` have been drawn into it. */
  ghost function PartialPixel(cells: map<Coord, Cell>, done: set<Coord>, cs: nat, px: int, py: int): Rgba
    requires cs > 0
  {
    var k := Owner(px, py, cs);
    if k in done && k in cells && cells[k].color.Some? then Paint(cells[k].color.value, cells[k].alpha) else Transparent
  }

  /** The column range `[start, end)` whose lines `draw` renders for a view spanning `lo..hi` on one axis. */
  function VisibleSpan(lo: real, hi: real, cs: nat, count: nat): (r: (int, int))
    requires cs > 0
    ensures 0 <= r.0 && r.1 <= count
  {
    (Max(0, (lo / cs as real).Floor - 1), Min(count, (hi / cs as real).Floor + 2))
  }

  /** Every in-grid cell whose block meets the view `lo..hi` is inside the span. */
  lemma VisibleSpanCovers(lo: real, hi: real, cs: nat, count: nat, c: int)
    requires cs > 0 && 0 <= c < count
    requires (c * cs) as real <= hi && lo < ((c + 1) * cs) as real
    ensures var r := VisibleSpan(lo, hi, cs, count); r.0 <= c < r.1
  {
    var csr := cs as real;
    assert (c as real) * csr <= hi;
    assert c as real <= hi / csr;
    assert (c + 1) as real * csr > lo;
    assert (c + 1) as real > lo / csr;
  }

  /**
   * The part of the overlay `_draw_cells_overlay` cuts out for a view whose
   * corners are `tl` and `br` in world coordinates, or None when it is empty.
   */
  function OverlaySource(tl: Viewport.Vec2, br: Viewport.Vec2, mapWidth: nat, mapHeight: nat): (r: Option<Rect>)
    ensures r.Some? ==> 0 <= r.value.x && 0 < r.value.w && r.value.x + r.value.w <= mapWidth
    ensures r.Some? ==> 0 <= r.value.y && 0 < r.value.h && r.value.y + r.value.h <= mapHeight
  {
    var x := Max(0, Trunc(tl.x) - 1);
    var y := Max(0, Trunc(tl.y) - 1);
    var w := Min(mapWidth, Trunc(br.x) + 2) - x;
    var h := Min(mapHeight, Trunc(br.y) + 2) - y;
    if w <= 0 || h <= 0 then None else Some(Rect(x, y, w, h))
  }

  /** Every map pixel inside the view lies in the cut-out part. */
  lemma OverlaySourceCovers(tl: Viewport.Vec2, br: Viewport.Vec2, mapWidth: nat, mapHeight: nat, px: int, py: int)
    requires 0 <= px < mapWidth && 0 <= py < mapHeight
    requires tl.x <= px as real <= br.x && tl.y <= py as real <= br.y
    ensures var r := OverlaySource(tl, br, mapWidth, mapHeight);
      && r.Some?
      && r.value.x <= px < r.value.x + r.value.w
      && r.value.y <= py < r.value.y + r.value.h
  {
    TruncBelow(tl.x, px);
    TruncBelow(tl.y, py);
    TruncAbove(br.x, px);
    TruncAbove(br.y, py);
  }

  lemma TruncBelow(r: real, p: int)
    requires 0 <= p && r <= p as real
    ensures Max(0, Trunc(r) - 1) <= p
  {
  }

  lemma TruncAbove(r: real, p: int)
    requires 0 <= p && p as real <= r
    ensures p < Trunc(r) + 2
  {
  }

  /** The text of `get_stats()['grid_size']`. */
  function GridSizeText(cols: int, rows: int): string
  {
    IntToDecimal(cols) + "x" + IntToDecimal(rows)
  }

  /** Splitting the grid-size text at `x` gives back both counts. */
  lemma GridSizeTextRoundTrip(cols: int, rows: int)
    ensures var parts := Split(GridSizeText(cols, rows), "x");
      && |parts| == 2
      && ParseInt(parts[0], 10) == Ok(cols)
      && ParseInt(parts[1], 10) == Ok(rows)
  {
    DecimalHasNoX(cols);
    DecimalHasNoX(rows);
    SplitFirst(IntToDecimal(cols), "x", IntToDecimal(rows));
    SplitNone(IntToDecimal(rows), "x");
    DecimalRoundTrip(cols);
    DecimalRoundTrip(rows);
  }

  lemma DecimalHasNoX(n: int)
    ensures 'x' !in IntToDecimal(n)
  {
    var m: nat := if n < 0 then -n else n;
    var d := NatToString(m, 10);
    NatToStringDigits(m, 10);
    assert 'x' !in d;
    if n < 0 {
      assert IntToDecimal(n) == "-" + d;
    }
  }

  /** The record `get_stats()` returns. */
  datatype Stats = Stats(
    totalCells: int, modifiedCells: int, gridSize: string,
    cellSizeText: string, visible: bool, overlayDirty: bool)

  /** The coordinates of all cells of a `cols`×`rows` grid, row by row. */
  function GridCoords(cols: nat, rows: nat): set<Coord>
  {
    if rows == 0 then {} else GridCoords(cols, rows - 1) + RowCoords(cols, rows - 1)
  }

  function RowCoords(cols: nat, row: int): set<Coord>
  {
    if cols == 0 then {} else RowCoords(cols - 1, row) + {(cols - 1, row)}
  }

  lemma {:induction false} RowCoordsSpec(cols: nat, row: int)
    ensures forall k :: k in RowCoords(cols, row) <==> 0 <= k.0 < cols && k.1 == row
    ensures |RowCoords(cols, row)| == cols
  {
    if cols > 0 {
      RowCoordsSpec(cols - 1, row);
    }
  }

  /** The grid holds exactly the in-grid coordinates. */
  lemma {:induction false} GridCoordsMembers(cols: nat, rows: nat)
    ensures forall k :: k in GridCoords(cols, rows) <==> InGrid(k, cols, rows)
  {
    if rows > 0 {
      GridCoordsMembers(cols, rows - 1);
      RowCoordsSpec(cols, rows - 1);
      forall k ensures k in GridCoords(cols, rows) <==> InGrid(k, cols, rows) {
        assert k in GridCoords(cols, rows) <==> k in GridCoords(cols, rows - 1) || k in RowCoords(cols, rows - 1);
      }
    }
  }

  /** A `cols`×`rows` grid has `cols*rows` cells. */
  lemma {:induction false} GridCoordsCard(cols: nat, rows: nat)
    ensures |GridCoords(cols, rows)| == cols * rows
  {
    if rows > 0 {
      var below, last := GridCoords(cols, rows - 1), RowCoords(cols, rows - 1);
      assert |GridCoords(cols, rows)| == |below| + |last| by {
        assert GridCoords(cols, rows) == below + last;
        RowAboveGrid(cols, rows - 1);
        DisjointCard(below, last);
      }
      assert |below| == cols * (rows - 1) by {
        GridCoordsCard(cols, rows - 1);
      }
      assert |last| == cols by {
        RowCoordsSpec(cols, rows - 1);
      }
      MulStep(cols, rows);
    }
  }

  /** Row `r` lies outside the `r` rows below it. */
  lemma RowAboveGrid(cols: nat, r: nat)
    ensures forall x :: x in GridCoords(cols, r) ==> x !in RowCoords(cols, r)
  {
    GridCoordsMembers(cols, r);
    RowCoordsSpec(cols, r);
  }

  lemma MulStep(a: nat, b: nat)
    requires b > 0
    ensures a * (b - 1) + a == a * b
  {
  }

  lemma DisjointCard<T>(a: set<T>, b: set<T>)
    requires forall x :: x in a ==> x !in b
    ensures |a + b| == |a| + |b|
  {
    assert a * b == {};
  }

  lemma SubsetCard<T>(a: set<T>, b: set<T>)
    requires a <= b
    ensures |a| <= |b|
  {
    assert b == a + (b - a);
  }

  class GridManager {
    const mapWidth: nat
    const mapHeight: nat
    const cellSize: nat
    const numCols: nat
    const numRows: nat

    var cells: map<Coord, Cell>
    var visible: bool
    var overlay: array2?<Rgba>
    var overlayDirty: bool

    ghost predicate Valid()
      reads this, overlay
    {
      && cellSize > 0
      && numCols == mapWidth / cellSize && numRows == mapHeight / cellSize
      && (forall k :: k in cells ==> InGrid(k, numCols, numRows))
      && (forall k :: k in cells ==> cells[k].color.Some? || cells[k].image.Some?)
      && (overlay != null ==> overlay.Length0 == mapWidth && overlay.Length1 == mapHeight)
      && (overlay != null && !overlayDirty ==> OverlayCurrent())
    }

    /** The overlay shows exactly the colours of the current cells. */
    ghost predicate OverlayCurrent()
      reads this, overlay
      requires overlay != null && cellSize > 0
    {
      forall px, py | 0 <= px < overlay.Length0 && 0 <= py < overlay.Length1 ::
        overlay[px, py] == OverlayPixel(cells, cellSize, px, py)
    }

    constructor (mapWidth: nat, mapHeight: nat, cellSize: nat := DefaultCellSize)
      requires cellSize > 0
      ensures Valid()
      ensures this.mapWidth == mapWidth && this.mapHeight == mapHeight && this.cellSize == cellSize
      ensures numCols == mapWidth / cellSize && numRows == mapHeight / cellSize
      ensures cells == map[] && !visible && overlay == null && overlayDirty
    {
      this.mapWidth := mapWidth;
      this.mapHeight := mapHeight;
      this.cellSize := cellSize;
      numCols := mapWidth / cellSize;
      numRows := mapHeight / cellSize;
      cells := map[];
      visible := false;
      overlay := null;
      overlayDirty := true;
    }

    /** `get_cell_color(x, y)`: the colour and alpha of a coloured cell, None otherwise. */
    function CellColor(k: Coord): (r: Option<(Rgb, Channel)>)
      reads this
      ensures r.Some? <==> k in cells && cells[k].color.Some?
      ensures r.Some? ==> r.value == (cells[k].color.value, cells[k].alpha)
    {
      if k in cells && cells[k].color.Some? then Some((cells[k].color.value, cells[k].alpha)) else None
    }

    method SetCellColor(x: int, y: int, color: Rgb, alpha: Channel := DefaultColorAlpha) returns (ok: bool)
      requires Valid()
      modifies this
      ensures Valid()
      ensures ok <==> InGrid((x, y), numCols, numRows)
      ensures !ok ==> cells == old(cells) && overlayDirty == old(overlayDirty)
      ensures ok ==> overlayDirty && cells.Keys == old(cells.Keys) + {(x, y)}
      ensures ok ==> CellColor((x, y)) == Some((color, alpha))
      ensures ok ==> cells[(x, y)].image == (if (x, y) in old(cells) then old(cells)[(x, y)].image else None)
      ensures forall k :: k != (x, y) && k in old(cells) ==> k in cells && cells[k] == old(cells)[k]
      ensures visible == old(visible) && overlay == old(overlay)
    {
      if !(0 <= x < numCols && 0 <= y < numRows) {
        return false;
      }
      var image := if (x, y) in cells then cells[(x, y)].image else None;
      cells := cells[(x, y) := Cell(Some(color), alpha, image)];
      overlayDirty := true;
      return true;
    }

    method SetCellImage(x: int, y: int, image: Image, alpha: Channel := DefaultImageAlpha) returns (ok: bool)
      requires Valid()
      modifies this
      ensures Valid()
      ensures ok <==> InGrid((x, y), numCols, numRows)
      ensures !ok ==> cells == old(cells) && overlayDirty == old(overlayDirty)
      ensures ok ==> overlayDirty && cells.Keys == old(cells.Keys) + {(x, y)}
      ensures ok ==> cells[(x, y)].image == Some(image)
      ensures ok ==> cells[(x, y)].alpha == alpha
      ensures ok ==> cells[(x, y)].color == (if (x, y) in old(cells) then old(cells)[(x, y)].color else None)
      ensures ok && old(CellColor((x, y))).Some? ==> CellColor((x, y)) == Some((old(CellColor((x, y))).value.0, alpha))
      ensures forall k :: k != (x, y) && k in old(cells) ==> k in cells && cells[k] == old(cells)[k]
      ensures visible == old(visible) && overlay == old(overlay)
    {
      if !(0 <= x < numCols && 0 <= y < numRows) {
        return false;
      }
      var color := if (x, y) in cells then cells[(x, y)].color else None;
      cells := cells[(x, y) := Cell(color, alpha, Some(image))];
      overlayDirty := true;
      return true;
    }

    method ResetCell(x: int, y: int) returns (existed: bool)
      requires Valid()
      modifies this
      ensures Valid()
      ensures existed <==> (x, y) in old(cells)
      ensures cells == old(cells) - {(x, y)}
      ensures overlayDirty == (old(overlayDirty) || existed)
      ensures visible == old(visible) && overlay == old(overlay)
    {
      existed := (x, y) in cells;
      if existed {
        cells := cells - {(x, y)};
        overlayDirty := true;
      }
    }

    method ClearAllCells()
      requires Valid()
      modifies this
      ensures Valid()
      ensures cells == map[] && overlayDirty
      ensures visible == old(visible) && overlay == old(overlay)
    {
      cells := map[];
      overlayDirty := true;
    }

    /** `get_cell_at_world_position`: the cell under a world point, if it is on the grid. */
    function CellAtWorldPosition(wx: real, wy: real): (r: Option<Coord>)
      requires cellSize > 0
      ensures r.Some? ==> InGrid(r.value, numCols, numRows)
      ensures r.Some? ==> (r.value.0 * cellSize) as real <= wx < ((r.value.0 + 1) * cellSize) as real
      ensures r.Some? ==> (r.value.1 * cellSize) as real <= wy < ((r.value.1 + 1) * cellSize) as real
    {
      var cs := cellSize as real;
      var x := (wx / cs).Floor;
      var y := (wy / cs).Floor;
      FloorBlock(wx, cellSize);
      FloorBlock(wy, cellSize);
      if 0 <= x < numCols && 0 <= y < numRows then Some((x, y)) else None
    }

    /** No grid cell's block holds a world point that `CellAtWorldPosition` maps to None. */
    lemma CellAtWorldPositionComplete(wx: real, wy: real, k: Coord)
      requires cellSize > 0 && InGrid(k, numCols, numRows)
      requires (k.0 * cellSize) as real <= wx < ((k.0 + 1) * cellSize) as real
      requires (k.1 * cellSize) as real <= wy < ((k.1 + 1) * cellSize) as real
      ensures CellAtWorldPosition(wx, wy) == Some(k)
    {
      FloorOfBlock(wx, k.0, cellSize);
      FloorOfBlock(wy, k.1, cellSize);
    }

    method ToggleVisibility() returns (v: bool)
      modifies this`visible
      ensures visible == !old(visible) && v == visible
    {
      visible := !visible;
      v := visible;
    }

    method Show()
      modifies this`visible
      ensures visible
    {
      visible := true;
    }

    method Hide()
      modifies this`visible
      ensures !visible
    {
      visible := false;
    }

    /** `get_stats()`; the modified cells never outnumber the cells of the grid. */
    function GetStats(): (s: Stats)
      reads this, overlay
      requires Valid()
      ensures s.totalCells == numCols * numRows && s.modifiedCells == |cells|
      ensures 0 <= s.modifiedCells <= s.totalCells
      ensures s.gridSize == GridSizeText(numCols, numRows)
    {
      GridCoordsMembers(numCols, numRows);
      GridCoordsCard(numCols, numRows);
      SubsetCard(cells.Keys, GridCoords(numCols, numRows));
      Stats(numCols * numRows, |cells|, GridSizeText(numCols, numRows),
            IntToDecimal(cellSize) + "px", visible, overlayDirty)
    }

    /** `_rebuild_overlay` for colour cells: a fresh transparent buffer, then one filled block per coloured cell. */
    method RebuildOverlay()
      requires Valid()
      modifies this`overlay, this`overlayDirty
      ensures Valid()
      ensures overlay != null && fresh(overlay) && !overlayDirty && OverlayCurrent()
    {
      var a := BuildOverlay(cells, cellSize, mapWidth, mapHeight);
      overlay := a;
      overlayDirty := false;
    }

    /** `_draw_cells_overlay` up to the cut-out of the visible part: rebuilds a missing or stale overlay when there are cells. */
    method DrawCellsOverlay(camera: Viewport.Camera) returns (src: Option<Rect>)
      requires Valid() && camera.Valid()
      modifies this`overlay, this`overlayDirty
      ensures Valid()
      ensures old(cells) == map[] ==> src.None? && overlay == old(overlay) && overlayDirty == old(overlayDirty)
      ensures old(cells) != map[] && !old(overlayDirty) && old(overlay) != null ==> overlay == old(overlay) && !overlayDirty
      ensures old(cells) != map[] ==> overlay != null && !overlayDirty && OverlayCurrent()
      ensures old(cells) != map[] ==>
        src == OverlaySource(camera.ScreenToWorld(Viewport.Vec2(0.0, 0.0)),
                             camera.ScreenToWorld(Viewport.Vec2(camera.viewportWidth, camera.viewportHeight)),
                             mapWidth, mapHeight)
    {
      if cells == map[] {
        return None;
      }
      if overlayDirty || overlay == null {
        RebuildOverlay();
      }
      var tl := camera.ScreenToWorld(Viewport.Vec2(0.0, 0.0));
      var br := camera.ScreenToWorld(Viewport.Vec2(camera.viewportWidth, camera.viewportHeight));
      src := OverlaySource(tl, br, mapWidth, mapHeight);
    }

    /**
     * `draw`: nothing when hidden; otherwise the overlay is brought up to date
     * and the column and row ranges of the grid lines are returned.
     */
    method Draw(camera: Viewport.Camera) returns (lines: Option<((int, int), (int, int))>)
      requires Valid() && camera.Valid()
      modifies this`overlay, this`overlayDirty
      ensures Valid()
      ensures !visible ==> lines.None? && overlay == old(overlay) && overlayDirty == old(overlayDirty)
      ensures visible ==> lines.Some?
      ensures visible && cells != map[] ==> overlay != null && !overlayDirty && OverlayCurrent()
      ensures lines.Some? ==>
        var tl := camera.ScreenToWorld(Viewport.Vec2(0.0, 0.0));
        var br := camera.ScreenToWorld(Viewport.Vec2(camera.viewportWidth, camera.viewportHeight));
        && lines.value.0 == VisibleSpan(tl.x, br.x, cellSize, numCols)
        && lines.value.1 == VisibleSpan(tl.y, br.y, cellSize, numRows)
    {
      if !visible {
        return None;
      }
      var tl := camera.ScreenToWorld(Viewport.Vec2(0.0, 0.0));
      var br := camera.ScreenToWorld(Viewport.Vec2(camera.viewportWidth, camera.viewportHeight));
      var cols := VisibleSpan(tl.x, br.x, cellSize, numCols);
      var rows := VisibleSpan(tl.y, br.y, cellSize, numRows);
      var _ := DrawCellsOverlay(camera);
      lines := Some((cols, rows));
    }
  }

  /**
   * The loop of `_rebuild_overlay`: a transparent map-sized buffer, then the
   * block of each coloured cell filled with its colour and alpha.
   */
  method BuildOverlay(cells: map<Coord, Cell>, cs: nat, w: nat, h: nat) returns (a: array2<Rgba>)
    requires cs > 0 && forall k :: k in cells ==> InGrid(k, w / cs, h / cs)
    ensures fresh(a) && a.Length0 == w && a.Length1 == h
    ensures forall px, py | 0 <= px < w && 0 <= py < h :: a[px, py] == OverlayPixel(cells, cs, px, py)
  {
    a := new Rgba[w, h]((px, py) => Transparent);
    var todo := cells.Keys;
    ghost var done: set<Coord> := {};
    while todo != {}
      invariant todo + done == cells.Keys && todo !! done
      invariant forall px, py | 0 <= px < w && 0 <= py < h :: a[px, py] == PartialPixel(cells, done, cs, px, py)
      decreases |todo|
    {
      var k :| k in todo;
      var cell := cells[k];
      if cell.color.Some? {
        BlockInsideMap(k.0, cs, w);
        BlockInsideMap(k.1, cs, h);
        FillBlock(a, k, cs, Paint(cell.color.value, cell.alpha));
      }
      forall px, py | 0 <= px < w && 0 <= py < h
        ensures a[px, py] == PartialPixel(cells, done + {k}, cs, px, py)
      {
        PartialStep(cells, done, cs, k, px, py);
      }
      todo := todo - {k};
      done := done + {k};
    }
  }

  /** Drawing one more cell changes exactly the pixels of its block, and only when it has a colour. */
  lemma PartialStep(cells: map<Coord, Cell>, done: set<Coord>, cs: nat, k: Coord, px: int, py: int)
    requires cs > 0 && k in cells
    ensures PartialPixel(cells, done + {k}, cs, px, py)
         == if InBlock(px, py, k, cs) && cells[k].color.Some? then Paint(cells[k].color.value, cells[k].alpha)
            else PartialPixel(cells, done, cs, px, py)
  {
    OwnerIffInBlock(px, py, k, cs);
  }

  /** Fills the `cs`×`cs` block of cell `k` with `v`, as pygame's `fill(v, rect)` does. */
  method FillBlock(a: array2<Rgba>, k: Coord, cs: nat, v: Rgba)
    requires 0 <= k.0 * cs && k.0 * cs + cs <= a.Length0
    requires 0 <= k.1 * cs && k.1 * cs + cs <= a.Length1
    modifies a
    ensures forall px, py | 0 <= px < a.Length0 && 0 <= py < a.Length1 ::
      a[px, py] == if InBlock(px, py, k, cs) then v else old(a[px, py])
  {
    forall px, py | k.0 * cs <= px < k.0 * cs + cs && k.1 * cs <= py < k.1 * cs + cs {
      a[px, py] := v;
    }
  }

  /** `floor(w / cs)` names the block that holds `w`. */
  lemma FloorBlock(w: real, cs: nat)
    requires cs > 0
    ensures var c := (w / cs as real).Floor;
      (c * cs) as real <= w < ((c + 1) * cs) as real
  {
    var csr := cs as real;
    var q := w / csr;
    var c := q.Floor;
    assert w == q * csr;
    assert (c * cs) as real == (c as real) * csr;
    assert ((c + 1) * cs) as real == (c as real + 1.0) * csr;
    assert c as real <= q < c as real + 1.0;
    ScaleLe(c as real, q, csr);
    ScaleLt(q, c as real + 1.0, csr);
  }

  lemma FloorOfBlock(w: real, c: int, cs: nat)
    requires cs > 0
    requires (c * cs) as real <= w < ((c + 1) * cs) as real
    ensures (w / cs as real).Floor == c
  {
    var csr := cs as real;
    var q := w / csr;
    assert w == q * csr;
    assert (c * cs) as real == (c as real) * csr;
    assert ((c + 1) * cs) as real == (c as real + 1.0) * csr;
    if q < c as real {
      ScaleLt(q, c as real, csr);
    }
    if q >= c as real + 1.0 {
      ScaleLe(c as real + 1.0, q, csr);
    }
    assert c as real <= q < c as real + 1.0;
    assert q.Floor as real <= q < q.Floor as real + 1.0;
  }

  lemma ScaleLe(a: real, b: real, k: real)
    requires a <= b && k > 0.0
    ensures a * k <= b * k
  {
  }

  lemma ScaleLt(a: real, b: real, k: real)
    requires a < b && k > 0.0
    ensures a * k < b * k
  {
  }
}
