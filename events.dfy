/**
 * The map-facing part of the game's event handling: right clicks highlight a
 * grid cell (and undo the previous highlight), a left press starts a drag
 * that pans the camera, and the mouse wheel zooms around the pointer.
 */
module Events {
  import opened Common
  import opened Viewport
  import opened Grid
  import opened Game

  /** A mouse position in window pixels. */
  type ScreenPos = (int, int)

  /** Colour and alpha of the cell highlight. */
  const Highlight: Rgb := Rgb(225, 225, 80)
  const HighlightAlpha: Channel := 150

  const ZoomInFactor: real := 1.2
  const ZoomOutFactor: real := 0.8

  /** The wheel factor: in for a positive wheel step, out otherwise. */
  function WheelFactor(wheelY: int): (f: real)
    ensures wheelY > 0 ==> f > 1.0
    ensures wheelY <= 0 ==> 0.0 < f < 1.0
  {
    if wheelY > 0 then ZoomInFactor else ZoomOutFactor
  }

  /** The value an option holds, as a set of at most one element. */
  function OptionSet<T>(o: Option<T>): set<T>
  {
    if o.Some? then {o.value} else {}
  }

  /** The centre after a drag step from `last` to `mouse`, before clamping. */
  function DragTarget(center: real, last: int, mouse: int, zoom: real): real
    requires zoom != 0.0
  {
    center + (last - mouse) as real / zoom
  }

  /** A drag step keeps the grabbed world point under the pointer (before clamping). */
  lemma DragKeepsGrabbedPoint(center: real, last: int, mouse: int, zoom: real, viewport: real)
    requires zoom != 0.0
    ensures ScreenToWorldAxis(mouse as real, DragTarget(center, last, mouse, zoom), zoom, viewport)
         == ScreenToWorldAxis(last as real, center, zoom, viewport)
  {
    var l, m := last as real, mouse as real;
    assert (l - m) / zoom + (m - viewport / 2.0) / zoom == (l - viewport / 2.0) / zoom;
  }

  class EventHandler {
    const game: GameState
    const camera: Camera
    const grid: GridManager
    /** Width of the side panel left of the map viewport. */
    const panelWidth: int

    var isDragging: bool
    var lastMousePos: Option<ScreenPos>
    /** The highlighted cell, and what `get_cell_color` said about it before the highlight. */
    var lastCell: Option<Coord>
    var lastCellColor: Option<(Rgb, Channel)>

    ghost predicate Valid()
      reads this, camera, grid, grid.overlay
    {
      && camera.Valid() && grid.Valid()
      && (lastCell.Some? ==> InGrid(lastCell.value, grid.numCols, grid.numRows))
    }

    constructor (game: GameState, camera: Camera, grid: GridManager, panelWidth: int)
      requires camera.Valid() && grid.Valid()
      ensures Valid()
      ensures this.game == game && this.camera == camera && this.grid == grid && this.panelWidth == panelWidth
      ensures !isDragging && lastMousePos.None? && lastCell.None? && lastCellColor.None?
    {
      this.game := game;
      this.camera := camera;
      this.grid := grid;
      this.panelWidth := panelWidth;
      isDragging := false;
      lastMousePos := None;
      lastCell := None;
      lastCellColor := None;
    }

    /** The mouse position relative to the map viewport. */
    function MapPoint(mouse: ScreenPos): Vec2
    {
      Vec2((mouse.0 - panelWidth) as real, mouse.1 as real)
    }

    /** `get_cell_at_mouse`: the grid cell under the pointer, None over the panel, above the map or off the grid. */
    function CellAtMouse(mouse: ScreenPos): (r: Option<Coord>)
      reads this, camera
      requires camera.Valid() && grid.cellSize > 0
      ensures r.Some? ==> mouse.0 >= panelWidth && mouse.1 >= 0
      ensures r.Some? ==> InGrid(r.value, grid.numCols, grid.numRows)
      ensures r.Some? ==> var w := camera.ScreenToWorld(MapPoint(mouse));
        && ((r.value.0 * grid.cellSize) as real <= w.x < ((r.value.0 + 1) * grid.cellSize) as real)
        && ((r.value.1 * grid.cellSize) as real <= w.y < ((r.value.1 + 1) * grid.cellSize) as real)
    {
      if mouse.0 - panelWidth < 0 || mouse.1 < 0 then None
      else
        var w := camera.ScreenToWorld(MapPoint(mouse));
        grid.CellAtWorldPosition(w.x, w.y)
    }

    /** Over the map, a pointer above a grid cell's block finds that cell. */
    lemma CellAtMouseFinds(mouse: ScreenPos, k: Coord)
      requires camera.Valid() && grid.cellSize > 0
      requires mouse.0 >= panelWidth && mouse.1 >= 0
      requires InGrid(k, grid.numCols, grid.numRows)
      requires var w := camera.ScreenToWorld(MapPoint(mouse));
        && ((k.0 * grid.cellSize) as real <= w.x < ((k.0 + 1) * grid.cellSize) as real)
        && ((k.1 * grid.cellSize) as real <= w.y < ((k.1 + 1) * grid.cellSize) as real)
      ensures CellAtMouse(mouse) == Some(k)
    {
      var w := camera.ScreenToWorld(MapPoint(mouse));
      grid.CellAtWorldPositionComplete(w.x, w.y, k);
    }

    /** `_handle_mousewheel`: zoom around the pointer, only when it is right of the panel. */
    method HandleMousewheel(wheelY: int, mouse: ScreenPos)
      requires Valid()
      modifies game`needRedraw, camera`x, camera`y, camera`zoom
      ensures Valid()
      ensures mouse.0 < panelWidth ==>
        camera.x == old(camera.x) && camera.y == old(camera.y) && camera.zoom == old(camera.zoom)
        && game.needRedraw == old(game.needRedraw)
      ensures mouse.0 >= panelWidth ==>
        camera.zoom == ZoomClamp(old(camera.zoom) * WheelFactor(wheelY), camera.minZoom, camera.maxZoom)
        && game.needRedraw
      ensures mouse.0 >= panelWidth && camera.zoom == old(camera.zoom) ==>
        camera.x == old(camera.x) && camera.y == old(camera.y)
      ensures mouse.0 >= panelWidth && camera.zoom != old(camera.zoom) ==>
        && camera.x == ClampAxis(AnchoredCenter(old(camera.x), MapPoint(mouse).x, camera.viewportWidth, old(camera.zoom), camera.zoom),
                                 camera.viewportWidth, camera.zoom, camera.mapWidth)
        && camera.y == ClampAxis(AnchoredCenter(old(camera.y), MapPoint(mouse).y, camera.viewportHeight, old(camera.zoom), camera.zoom),
                                 camera.viewportHeight, camera.zoom, camera.mapHeight)
    {
      var mapX := mouse.0 - panelWidth;
      if mapX >= 0 {
        camera.ApplyZoom(WheelFactor(wheelY), MapPoint(mouse));
        game.needRedraw := true;
      }
    }

    /** `_handle_mouse_down`: a right click on the visible grid picks a cell; a press over the map starts a drag. */
    method HandleMouseDown(mouse: ScreenPos, rightButton: bool := false)
      requires Valid()
      modifies this`isDragging, this`lastMousePos, this`lastCell, this`lastCellColor, grid
      ensures Valid()
      ensures old(grid.visible) && rightButton ==>
        isDragging == old(isDragging) && lastMousePos == old(lastMousePos)
        && lastCell == (if old(CellAtMouse(mouse)).Some? then old(CellAtMouse(mouse)) else old(lastCell))
      ensures var hit := old(CellAtMouse(mouse));
        old(grid.visible) && rightButton && hit.None? ==>
          grid.cells == old(grid.cells) && grid.overlayDirty == old(grid.overlayDirty) && lastCellColor == old(lastCellColor)
      ensures var hit := old(CellAtMouse(mouse));
        old(grid.visible) && rightButton && hit.Some? ==>
          && grid.overlayDirty && grid.CellColor(hit.value) == Some((Highlight, HighlightAlpha))
          && lastCellColor == (if old(lastCell) == hit then old(lastCellColor) else old(grid.CellColor(hit.value)))
          && grid.cells.Keys <= old(grid.cells).Keys + {hit.value} + OptionSet(old(lastCell))
      ensures var hit := old(CellAtMouse(mouse));
        old(grid.visible) && rightButton && hit.Some? && old(lastCell).Some? && old(lastCell) != hit ==>
          && grid.CellColor(old(lastCell).value) == old(lastCellColor)
          && (old(lastCellColor).None? ==> old(lastCell).value !in grid.cells)
      ensures var hit := old(CellAtMouse(mouse));
        old(grid.visible) && rightButton ==>
          forall k :: k in old(grid.cells) && Some(k) != hit && Some(k) != old(lastCell) ==>
            k in grid.cells && grid.cells[k] == old(grid.cells)[k]
      ensures !(old(grid.visible) && rightButton) ==>
        && grid.cells == old(grid.cells) && grid.overlayDirty == old(grid.overlayDirty)
        && lastCell == old(lastCell) && lastCellColor == old(lastCellColor)
        && (mouse.0 >= panelWidth ==> isDragging && lastMousePos == Some(mouse))
        && (mouse.0 < panelWidth ==> isDragging == old(isDragging) && lastMousePos == old(lastMousePos))
      ensures grid.visible == old(grid.visible) && grid.overlay == old(grid.overlay)
    {
      if grid.visible && rightButton {
        HandleGridClick(mouse);
        return;
      }
      if mouse.0 >= panelWidth {
        isDragging := true;
        lastMousePos := Some(mouse);
      }
    }

    /** `_handle_mouse_up`: the drag ends. */
    method HandleMouseUp()
      modifies this`isDragging, this`lastMousePos
      ensures !isDragging && lastMousePos.None?
    {
      isDragging := false;
      lastMousePos := None;
    }

    /**
     * `_handle_grid_click`: the previously highlighted cell gets its saved
     * colour back (or is removed when it had none), then the clicked cell is
     * remembered with its colour and highlighted.
     */
    method HandleGridClick(mouse: ScreenPos)
      requires Valid()
      modifies this`lastCell, this`lastCellColor, grid
      ensures Valid()
      ensures var hit := old(CellAtMouse(mouse));
        hit.None? ==>
          && grid.cells == old(grid.cells) && grid.overlayDirty == old(grid.overlayDirty)
          && lastCell == old(lastCell) && lastCellColor == old(lastCellColor)
      ensures var hit := old(CellAtMouse(mouse));
        hit.Some? ==>
          && lastCell == hit && grid.overlayDirty
          && grid.CellColor(hit.value) == Some((Highlight, HighlightAlpha))
          && lastCellColor == (if old(lastCell) == hit then old(lastCellColor) else old(grid.CellColor(hit.value)))
      ensures var hit := old(CellAtMouse(mouse));
        hit.Some? && old(lastCell).Some? && old(lastCell) != hit ==>
          && grid.CellColor(old(lastCell).value) == old(lastCellColor)
          && (old(lastCellColor).None? ==> old(lastCell).value !in grid.cells)
      ensures var hit := old(CellAtMouse(mouse));
        hit.Some? ==>
          && hit.value in grid.cells
          && grid.cells[hit.value].image ==
               (if hit.value in old(grid.cells) && !(old(lastCell) == hit && old(lastCellColor).None?)
                then old(grid.cells)[hit.value].image else None)
      ensures var hit := old(CellAtMouse(mouse));
        forall k :: k in old(grid.cells) && Some(k) != hit && Some(k) != old(lastCell) ==>
          k in grid.cells && grid.cells[k] == old(grid.cells)[k]
      ensures var hit := old(CellAtMouse(mouse));
        hit.Some? ==> grid.cells.Keys <= old(grid.cells).Keys + {hit.value} + OptionSet(old(lastCell))
      ensures grid.visible == old(grid.visible) && grid.overlay == old(grid.overlay)
    {
      var hit := CellAtMouse(mouse);
      if mouse.0 - panelWidth < 0 || mouse.1 < 0 {
        return;
      }
      var w := camera.ScreenToWorld(MapPoint(mouse));
      var cell := grid.CellAtWorldPosition(w.x, w.y);
      if cell.None? {
        return;
      }
      var c := cell.value;
      assert hit == Some(c);
      ghost var before := grid.CellColor(c);
      ghost var saved := lastCellColor;
      ghost var cells0 := grid.cells;
      RestoreHighlighted();
      assert grid.CellColor(c) == (if lastCell == hit then saved else before);
      assert (if c in grid.cells then grid.cells[c].image else None) ==
             (if c in cells0 && !(lastCell == hit && saved.None?) then cells0[c].image else None);
      HighlightCell(c);
    }

    /** The second half of a grid click: the cell's colour is saved, then the cell is highlighted and remembered. */
    method HighlightCell(c: Coord)
      requires Valid() && InGrid(c, grid.numCols, grid.numRows)
      modifies this`lastCell, this`lastCellColor, grid
      ensures Valid()
      ensures lastCell == Some(c) && lastCellColor == old(grid.CellColor(c))
      ensures grid.overlayDirty && grid.CellColor(c) == Some((Highlight, HighlightAlpha))
      ensures c in grid.cells && grid.cells[c].image == (if c in old(grid.cells) then old(grid.cells)[c].image else None)
      ensures forall k :: k in old(grid.cells) && k != c ==> k in grid.cells && grid.cells[k] == old(grid.cells)[k]
      ensures grid.cells.Keys == old(grid.cells).Keys + {c}
      ensures grid.visible == old(grid.visible) && grid.overlay == old(grid.overlay)
    {
      lastCellColor := grid.CellColor(c);
      var _ := grid.SetCellColor(c.0, c.1, Highlight, HighlightAlpha);
      lastCell := Some(c);
    }

    /** The first half of a grid click: the highlighted cell gets its saved colour back, or is removed when it had none. */
    method RestoreHighlighted()
      requires Valid()
      modifies this`lastCellColor, grid
      ensures Valid() && lastCell == old(lastCell)
      ensures lastCell.Some? ==>
        && grid.CellColor(lastCell.value) == old(lastCellColor)
        && (old(lastCellColor).None? ==> lastCell.value !in grid.cells)
      ensures lastCell.Some? && old(lastCellColor).Some? ==>
        grid.cells[lastCell.value].image ==
          (if lastCell.value in old(grid.cells) then old(grid.cells)[lastCell.value].image else None)
      ensures lastCell.Some? ==> lastCellColor.None?
      ensures lastCell.None? ==>
        grid.cells == old(grid.cells) && grid.overlayDirty == old(grid.overlayDirty) && lastCellColor == old(lastCellColor)
      ensures forall k :: k in old(grid.cells) && Some(k) != lastCell ==> k in grid.cells && grid.cells[k] == old(grid.cells)[k]
      ensures forall k: Coord :: old(allocated(k)) && Some(k) != lastCell ==> grid.CellColor(k) == old(grid.CellColor(k))
      ensures grid.cells.Keys <= old(grid.cells).Keys + OptionSet(lastCell)
      ensures grid.visible == old(grid.visible) && grid.overlay == old(grid.overlay)
    {
      if lastCell.Some? {
        var p := lastCell.value;
        if lastCellColor.Some? {
          var _ := grid.SetCellColor(p.0, p.1, lastCellColor.value.0, lastCellColor.value.1);
          lastCellColor := None;
        } else {
          var _ := grid.ResetCell(p.0, p.1);
        }
      }
    }

    /** `_handle_drag`: while dragging, pan so the grabbed point follows the pointer. */
    method HandleDrag(mouse: ScreenPos)
      requires Valid()
      modifies this`lastMousePos, game`needRedraw, camera`x, camera`y
      ensures Valid()
      ensures !(old(isDragging) && old(lastMousePos).Some?) ==>
        camera.x == old(camera.x) && camera.y == old(camera.y)
        && lastMousePos == old(lastMousePos) && game.needRedraw == old(game.needRedraw)
      ensures old(isDragging) && old(lastMousePos).Some? ==>
        var last := old(lastMousePos).value;
        && camera.x == ClampAxis(DragTarget(old(camera.x), last.0, mouse.0, camera.zoom),
                                 camera.viewportWidth, camera.zoom, camera.mapWidth)
        && camera.y == ClampAxis(DragTarget(old(camera.y), last.1, mouse.1, camera.zoom),
                                 camera.viewportHeight, camera.zoom, camera.mapHeight)
        && lastMousePos == Some(mouse) && game.needRedraw
    {
      if isDragging && lastMousePos.Some? {
        var last := lastMousePos.value;
        var dx := (last.0 - mouse.0) as real / camera.zoom;
        var dy := (last.1 - mouse.1) as real / camera.zoom;
        camera.Move(dx, dy);
        lastMousePos := Some(mouse);
        game.needRedraw := true;
      }
    }
  }
}
