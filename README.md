# Earthfront core, modelled in Dafny

Earthfront is a pygame strategy game played on a map image. The player pans the
camera by dragging, zooms with the mouse wheel, and can show a resource grid
over the map. Right-clicking a cell of the visible grid highlights it. The
chunk data behind each cell is derived from the colours of the map image and
from a seeded random generator.

This project models the logic under that screen:

- the camera: zoom limits, zoom anchored at the mouse, panning and clamping,
  and the screen/world conversions (`camera.dfy`);
- the grid manager: the sparse cell store, the cell under a world position,
  statistics, the lazily rebuilt RGBA overlay and the visible ranges
  (`grid.dfy`);
- the event handler's mouse logic: the wheel zoom, drag panning, and the
  right-click highlight that restores the previously highlighted cell
  (`events.dfy`, over the shared flags in `game.dfy`);
- the chunk record and its extraction: a terrain tally over a 10×10 block of
  pixels, then oil and mineral rolls and wood (`models.dfy`, `chunks.dfy`);
- the renderer's bookkeeping: the ten-entry zoom cache with oldest-first
  eviction, the decision to skip a full frame, the high-zoom visible region and
  the FPS counter (`renderer.dfy`);
- the rounded buttons and the game UI: press/release clicks, colours by state,
  and button placement on resize (`ui.dfy`);
- the colour converter (`colors.dfy`) and the `Config`/`Color` classes of the
  data handler (`datahandler.dfy`);
- the Python string and number behaviour these rely on: `strip`, `lstrip`,
  `split`, `int(text, base)`, decimal formatting and `{:02X}` (`text.dfy`,
  `common.dfy`).

Objects whose fields the source updates in place are classes, with `modifies`
clauses on their methods: the camera, the grid manager, the event handler, the
renderer, the buttons, the game UI, the config and the random generator. Each
method's `ensures` ties the new state to specification functions. The
properties of those functions are proved as lemmas. Pure code (colour
conversion, parsing, the chunk rules) is functions and lemmas.

## Model

| member | source | states |
|---|---|---|
| Viewport.ScreenToWorldAxis | core/game/camera.py:101-111 | the world coordinate it returns maps back to the given screen coordinate under `world_to_screen` |
| Viewport.WorldScreenWorld | core/game/camera.py:101-111 | `screen_to_world(world_to_screen(w)) == w` for every non-zero zoom |
| Viewport.MinZoomFitsMap | core/game/camera.py:46-52 | at the minimum zoom the whole map fits in the viewport on both axes, and the minimum zoom equals one of the two axis ratios |
| Viewport.ZoomClamp | core/game/camera.py:58 | the clamped zoom lies in `[min, max]` when that range is non-empty, a zoom already inside is unchanged, and the result is `min`, `max` or the zoom itself |
| Viewport.ClampAxis | core/game/camera.py:81-99 | when the view fits, the centre ends within `[half, map - half]` and an inside centre is kept; otherwise it is the map's midpoint |
| Viewport.ClampAxisIdempotent | core/game/camera.py:81-99 | clamping a clamped centre changes nothing |
| Viewport.ClampKeepsViewInsideMap | core/game/camera.py:81-99 | when the view fits in the map, the clamped view's edges stay inside `[0, map]` |
| Viewport.AnchoredCenter | core/game/camera.py:60-71 | the new centre keeps the world point under the mouse at the same screen position across the zoom change |
| Viewport.MidpointIsClamped | core/game/camera.py:21-22 | the initial centre, the map's midpoint, is already clamped |
| Viewport.Camera.constructor | core/game/camera.py:7-37 | the camera starts centred on the map with zoom `max(3.0, min_zoom)`, maximum zoom 15.0 and a valid, clamped state |
| Viewport.Camera.UpdateMinZoom | core/game/camera.py:46-52 | the minimum zoom is recomputed from the viewport, and the zoom is raised to it only if below |
| Viewport.Camera.UpdateViewportSize | core/game/camera.py:39-44 | the new extents are stored, the minimum zoom is recomputed, the zoom never decreases, and the centre is re-clamped |
| Viewport.Camera.ApplyZoom | core/game/camera.py:54-73 | the zoom becomes the clamped product; if it does not change nothing moves; otherwise the centre is the mouse-anchored centre, clamped |
| Viewport.Camera.ZoomAround | core/game/camera.py:60-73 | the zoom-changing branch: new zoom, anchored and clamped centre |
| Viewport.Camera.Move | core/game/camera.py:75-79 | the centre becomes the clamped sum of the old centre and the offset |
| Viewport.Camera.ClampPosition | core/game/camera.py:81-99 | both coordinates are clamped and the camera is afterwards in clamped position |
| Viewport.Camera.WorldToScreen | core/game/camera.py:101-105 | `screen_to_world` of the result gives back the world point |
| Viewport.Camera.ScreenToWorld | core/game/camera.py:107-111 | `world_to_screen` of the result gives back the screen point |
| Grid.OwnerIffInBlock | earthfront/game/grid_manager.py:145-148 | a pixel belongs to cell `k` (by floor division) exactly when it lies in `k`'s `cell_size` block |
| Grid.DivIffBetween | earthfront/game/grid_manager.py:81-82 | `p // cs == g` exactly when `g*cs <= p < g*cs + cs` |
| Grid.ColorBlockFilled | earthfront/game/grid_manager.py:145-148 | every overlay pixel in the block of a coloured cell has that cell's colour and alpha |
| Grid.OutsideBlocksTransparent | earthfront/game/grid_manager.py:137-138 | an overlay pixel outside every coloured cell's block is fully transparent |
| Grid.BlockInsideMap | earthfront/game/grid_manager.py:145-148 | the block of an in-grid cell lies inside the map |
| Grid.VisibleSpan | earthfront/game/grid_manager.py:120-123 | the grid-line range is clipped to `[0, count]` |
| Grid.VisibleSpanCovers | earthfront/game/grid_manager.py:120-123 | every cell that overlaps the visible world interval is inside the range |
| Grid.OverlaySource | earthfront/game/grid_manager.py:168-177 | a returned source rectangle is non-empty and inside the overlay |
| Grid.OverlaySourceCovers | earthfront/game/grid_manager.py:168-177 | every map pixel inside the visible world rectangle is inside the source rectangle |
| Grid.GridSizeTextRoundTrip | earthfront/game/grid_manager.py:105 | splitting `f"{cols}x{rows}"` at `x` gives two parts that read back as `cols` and `rows` |
| Grid.GridCoordsMembers | earthfront/game/grid_manager.py:103 | the set of grid coordinates holds exactly the in-grid cells |
| Grid.GridCoordsCard | earthfront/game/grid_manager.py:103 | there are `num_cols * num_rows` of them |
| Grid.GridManager.constructor | earthfront/game/grid_manager.py:14-36 | the grid has `map // cell_size` columns and rows, no cells, is hidden and has a dirty overlay |
| Grid.GridManager.CellColor | earthfront/game/grid_manager.py:87-91 | a colour is reported exactly for stored cells that have one, with the cell's alpha |
| Grid.GridManager.SetCellColor | earthfront/game/grid_manager.py:42-51 | succeeds exactly for in-grid cells; then only that cell gains the colour and alpha, keeps its image, and the overlay is dirty; otherwise nothing changes |
| Grid.GridManager.SetCellImage | earthfront/game/grid_manager.py:53-65 | succeeds exactly for in-grid cells; then only that cell gains the image and alpha, keeps its colour, and the overlay is dirty |
| Grid.GridManager.ResetCell | earthfront/game/grid_manager.py:67-72 | removes the cell; reports and dirties exactly when it was stored |
| Grid.GridManager.ClearAllCells | earthfront/game/grid_manager.py:74-78 | no cells remain and the overlay is dirty |
| Grid.GridManager.CellAtWorldPosition | earthfront/game/grid_manager.py:80-85 | a returned cell is in the grid and its block contains the world position |
| Grid.GridManager.CellAtWorldPositionComplete | earthfront/game/grid_manager.py:80-85 | every in-grid cell whose block contains the position is found |
| Grid.GridManager.ToggleVisibility | earthfront/game/grid_manager.py:93-96 | visibility flips and the new value is returned |
| Grid.GridManager.Show | earthfront/game/grid_manager.py:98 | the grid is visible |
| Grid.GridManager.Hide | earthfront/game/grid_manager.py:99 | the grid is hidden |
| Grid.GridManager.GetStats | earthfront/game/grid_manager.py:101-109 | total cells is `cols * rows`, modified cells counts the stored cells and never exceeds the total, and the size text is `cols x rows` |
| Grid.GridManager.RebuildOverlay | earthfront/game/grid_manager.py:131-153 | a fresh overlay whose every pixel is the colour of the cell owning it, or transparent, and the dirty flag is cleared |
| Grid.BuildOverlay | earthfront/game/grid_manager.py:137-151 | the overlay loop: a fresh map-sized array in which every pixel inside a coloured cell's block has that cell's colour and alpha and every other pixel is transparent |
| Grid.GridManager.DrawCellsOverlay | earthfront/game/grid_manager.py:156-177 | nothing without cells; otherwise the overlay is current (rebuilt only when dirty or missing) and the blitted source is the visible map rectangle |
| Grid.GridManager.Draw | earthfront/game/grid_manager.py:113-129 | nothing when hidden; otherwise the overlay is current and the grid-line ranges are the visible spans |
| Grid.FillBlock | earthfront/game/grid_manager.py:145-148 | exactly the cell's block of the array takes the value; every other pixel is unchanged |
| Grid.FloorOfBlock | earthfront/game/grid_manager.py:81-82 | the floor of `w / cs` is `c` for every `w` in cell `c`'s block |
| Events.WheelFactor | earthfront/game/event_handler.py:116 | a positive wheel step zooms in (factor above 1), any other zooms out (factor in (0, 1)) |
| Events.DragKeepsGrabbedPoint | earthfront/game/event_handler.py:179-185 | before clamping, the world point under the previous mouse position is under the new one after a drag step |
| Events.EventHandler.constructor | earthfront/game/event_handler.py:15-21 | no drag, no last mouse position, no highlighted cell, no saved colour |
| Events.EventHandler.CellAtMouse | earthfront/game/event_handler.py:187-195 | a found cell is right of the panel, below the top, in the grid, and its block holds the world point under the mouse |
| Events.EventHandler.CellAtMouseFinds | earthfront/game/event_handler.py:187-195 | over the map, the cell whose block holds the point under the mouse is found |
| Events.EventHandler.HandleMousewheel | earthfront/game/event_handler.py:112-118 | over the panel nothing changes; over the map the camera zooms by the wheel factor, anchored at the mouse, and a redraw is requested; when the clamped zoom does not change, the centre stays where it was |
| Events.EventHandler.HandleMouseDown | earthfront/game/event_handler.py:120-158 | a right click on the visible grid goes to the grid click: off the grid no cell changes; on a cell that cell is highlighted, its previous colour is saved, the previous highlight is restored or removed, no key other than these two appears and every other cell is untouched; otherwise a press over the map starts a drag from the mouse position |
| Events.EventHandler.HandleMouseUp | earthfront/game/event_handler.py:129-131 | the drag ends and the last mouse position is cleared |
| Events.EventHandler.HandleGridClick | earthfront/game/event_handler.py:133-158 | off the grid nothing changes; on a cell the previous highlight gets its saved colour back (or its cell is removed when there was none), the clicked cell's colour is saved, it is highlighted in (225, 225, 80) at alpha 150 keeping its image (none when the cell was new or was just removed), no key other than the clicked and the previous cell appears, and every other cell is untouched |
| Events.EventHandler.HighlightCell | earthfront/game/event_handler.py:156-158 | the cell's colour is saved and it becomes the highlighted cell, coloured (225, 225, 80) at alpha 150 with its image kept; exactly that key is added and no other cell changes |
| Events.EventHandler.RestoreHighlighted | earthfront/game/event_handler.py:146-154 | the previously highlighted cell gets its saved colour back with its image kept, or is removed when the saved colour was empty; afterwards no colour is saved while a cell is highlighted; with no highlighted cell nothing changes; no key other than the highlighted one appears and every other cell and its colour stay as they were |
| Events.EventHandler.HandleDrag | earthfront/game/event_handler.py:179-185 | while dragging, the camera moves by the mouse offset divided by the zoom (clamped), the position is remembered, and a redraw is requested; otherwise nothing changes |
| Game.GameState.constructor | earthfront/game/game.py:172-173 | a new game has no map surface and asks for a redraw |
| Chunks.TerrainOf | earthfront/utils/gen_chunk_bdd.py:27-32 | each terrain corresponds to exactly one RGB colour of the table |
| Chunks.TalliedTotal | earthfront/utils/gen_chunk_bdd.py:34-38 | after `k` pixels the four terrain counts add up to at most `k` |
| Chunks.ChunkTerrainBound | earthfront/utils/gen_chunk_bdd.py:24-42 | a tallied chunk has its position, non-negative terrain counts totalling at most 100, and every other amount 0 |
| Chunks.Draw | earthfront/utils/gen_chunk_bdd.py:51 | `randint(a, b)` lies in `[a, b]` |
| Chunks.Roll | earthfront/utils/gen_chunk_bdd.py:51-55 | a draw below 30 gives a deposit in 10..40, above the threshold one in 60..100, otherwise the amount stays, using two or one draws |
| Chunks.ProspectShape | earthfront/utils/gen_chunk_bdd.py:57-64 | mineral rolls change only the four minerals, and each stays 0, 10..40 or 60..100 |
| Chunks.ChunkDataShape | earthfront/utils/gen_chunk_bdd.py:44-68 | the record keeps the tallied terrain, has oil only when mostly water or sand and snow, no minerals when mostly water, every amount 0, 10..40 or 60..100, and wood `grass + snow // 2` |
| Chunks.OilRoll | earthfront/utils/gen_chunk_bdd.py:50-55 | oil follows the first draw: small below 30, large above 40, none between 30 and 40 or without the gate |
| Chunks.Random.constructor | earthfront/utils/gen_chunk_bdd.py:16-22 | a generator starts at the first draw of its stream |
| Chunks.Random.RandInt | earthfront/utils/gen_chunk_bdd.py:51 | returns the current draw scaled into `[a, b]` and advances by one draw |
| Chunks.ChunkDataExtractor.constructor | earthfront/utils/gen_chunk_bdd.py:7-14 | the seed defaults to 42 |
| Chunks.ChunkDataExtractor.GetChunkPixels | earthfront/utils/gen_chunk_bdd.py:24-42 | the loop's record is the full tally of the chunk's 100 pixels (unreadable or unknown pixels are skipped) |
| Chunks.ChunkDataExtractor.GetChunkData | earthfront/utils/gen_chunk_bdd.py:44-68 | the record is the chunk specification applied to the pixels and the chunk's seeded stream, so equal seeds give equal chunks |
| Chunks.RollOil | earthfront/utils/gen_chunk_bdd.py:50-55 | the oil step: the record and draws consumed agree with the oil rule |
| Chunks.RollMinerals | earthfront/utils/gen_chunk_bdd.py:57-64 | the mineral loop agrees with the mineral rule for gold, iron, copper and coal in order |
| Chunks.RollMineral | earthfront/utils/gen_chunk_bdd.py:60-64 | one pass of the mineral loop: the amount and draws consumed agree with the roll rule (below 30 a small deposit, above 45 a large one, otherwise unchanged) |
| Render.VisibleRegion | earthfront/game/renderer.py:158-172 | the region starts inside the map and, when non-empty, ends inside it |
| Render.VisibleRegionCovers | earthfront/game/renderer.py:158-172 | every map column between the view's left edge and two short of its right edge (or the map's) is inside the region |
| Render.FpsTextRoundTrip | earthfront/game/renderer.py:195 | the text is `FPS: ` followed by a number that reads back as the rate |
| Render.Renderer.constructor | earthfront/game/renderer.py:14-32 | an empty cache, no recorded camera, a zero counter and no FPS text |
| Render.Renderer.UpdateFpsDisplay | earthfront/game/renderer.py:187-195 | the counter advances modulo 15; on the 15th frame the text is redone exactly when the truncated rate changed |
| Render.Renderer.RenderLowZoom | earthfront/game/renderer.py:124-146 | a cached zoom level leaves the cache unchanged; a new one is scaled and appended, evicting the oldest key when there were ten; at most ten distinct keys remain |
| Render.Admit | earthfront/game/renderer.py:128-139 | adding a key missing from a cache that agrees with its order grows it by one, and appending the key (dropping the oldest when it overflows) keeps order and cache in agreement without repetition |
| Render.Renderer.ClearCache | earthfront/game/renderer.py:197-200 | the cache is empty and a redraw is requested |
| Render.Renderer.Render | earthfront/game/renderer.py:34-60 | the quick path is taken exactly when nothing asked for a redraw, the camera is unchanged, a surface exists and the grid is hidden; then no render state changes and the grid overlay is untouched; otherwise a full frame is drawn |
| Render.Renderer.CanSkipRender | earthfront/game/renderer.py:54-60 | true exactly when no redraw is asked, the position and zoom equal the recorded ones, a surface exists and the grid is hidden; so never on a requested redraw, without a surface, with the grid shown, or before a full frame has recorded a camera |
| Render.Renderer.SkipOnlyAtRecordedCamera | earthfront/game/renderer.py:54-60 | a frame can be skipped for at most one camera position and zoom: those recorded by the last full render |
| Render.Renderer.FullRender | earthfront/game/renderer.py:69-99 | the surface has the viewport size, the map is drawn from the cache at zoom up to 1.5 and from the visible region above, the camera is recorded and the redraw request is served, so a hidden-grid frame can be skipped next time |
| Render.Renderer.DrawMap | earthfront/game/renderer.py:83-87 | above zoom 1.5 the frame is the visible region and the cache is untouched; otherwise the frame is the cached scaled map for the current zoom key |
| Render.CacheSize | earthfront/game/renderer.py:137 | a cache whose keys are those of a repetition-free insertion order has as many entries as the order |
| Ui.CollidePoint | earthfront/game/ui.py:36 | pygame's half-open rectangle test: left and top edges in, right and bottom out, so an empty rectangle holds no point |
| Ui.CollideEdges | earthfront/game/ui.py:36 | `collidepoint` includes the top-left corner of a non-empty rectangle and excludes its right and bottom edges |
| Ui.Step | earthfront/game/ui.py:34-46 | hover is collision; a click is reported exactly on a release over the button after a press; the button is pressed while held if the press began over it; `active` flips exactly on a click |
| Ui.PressReleaseClicks | earthfront/game/ui.py:34-46 | a press over the button followed by a release over it is one click and toggles `active` |
| Ui.NoClickWithoutPress | earthfront/game/ui.py:40-44 | without an earlier press there is no click and `active` is kept |
| Ui.PressOffButtonIgnored | earthfront/game/ui.py:38-39 | a press that begins off the button does not press it in that step |
| Ui.PressHeldOffButton | earthfront/game/ui.py:38-41 | a press made over the button stays while the mouse is held, wherever it goes, and is not a click |
| Ui.FillColor | earthfront/game/ui.py:51-54 | the fill is one of the four palette colours |
| Ui.FillColorShowsState | earthfront/game/ui.py:51-54 | with four distinct colours, the fill determines both the active and the hovered flag |
| Ui.GamePalettesDistinct | earthfront/game/ui.py:18-21 | the default palette and the red quit palette each have four distinct colours |
| Ui.IconAlpha | earthfront/game/ui.py:61 | the icon is opaque exactly when the button is active |
| Ui.RoundedButton.constructor | earthfront/game/ui.py:9-21 | a square at the position, not hovered, pressed or active, with the default colours |
| Ui.RoundedButton.Update | earthfront/game/ui.py:34-46 | the new flags and the click are one `Step` of the old flags |
| Ui.RoundedButton.DrawStyle | earthfront/game/ui.py:48-61 | the fill colour and icon alpha for the current flags; the icon is opaque exactly when the button is active |
| Ui.RoundedButton.SetPosition | earthfront/game/ui.py:67-70 | only the rectangle's corner moves |
| Ui.SlotsInWindow | earthfront/game/ui.py:91-115 | both button slots lie inside a window large enough for one button and margin |
| Ui.SlotsDisjoint | earthfront/game/ui.py:91-115 | the overlay and quit buttons overlap exactly when the window is shorter than two buttons with their margins |
| Ui.GameUI.constructor | earthfront/game/ui.py:76-119 | both buttons in their slots with corner radius 16, the quit button red, no overlay shown and no quit requested |
| Ui.GameUI.Update | earthfront/game/ui.py:121-135 | each button takes one `Step`; the overlay flag flips exactly when the overlay button was clicked; in a tall enough window both cannot be clicked at once |
| Ui.GameUI.Resize | earthfront/game/ui.py:142-163 | the size is stored and both buttons are moved to their slots for it |
| ColorConverter.RgbToHex | earthfront/utils/color_converter.py:1-3 | the text starts with `#` and has at least seven characters |
| ColorConverter.RgbToHexShape | earthfront/utils/color_converter.py:1-3 | for byte channels the text is `#` and six upper-case hex digits |
| ColorConverter.HexFields | earthfront/utils/color_converter.py:7-9 | the three slices have at most two characters each |
| ColorConverter.HexToRgb | earthfront/utils/color_converter.py:6-9 | succeeds exactly when all three fields parse in base 16; a failure is a ValueError |
| ColorConverter.HexRoundTrip | earthfront/utils/color_converter.py:1-9 | `hex_to_rgb(rgb_to_hex(c)) == c` for byte channels |
| ColorConverter.LowercaseAccepted | earthfront/utils/color_converter.py:6-9 | the lower-cased hex text of a colour parses back to it |
| ColorConverter.HexToRgbBound | earthfront/utils/color_converter.py:6-9 | parsed channels lie in -15..255, and in 0..255 when the text has no minus sign |
| ColorConverter.ToLower | earthfront/utils/color_converter.py:9 | lower-casing keeps the length and maps exactly the letters A-Z |
| DataHandler.AssignedKeys | earthfront/utils/data_handler.py:34-35 | the loop writes a key exactly when some item names it |
| DataHandler.AssignedLast | earthfront/utils/data_handler.py:34-35 | the last item with a given key decides its value |
| DataHandler.Declared | earthfront/utils/data_handler.py:22-23 | the exported dict has exactly the eight declared fields, with the instance's values |
| DataHandler.UndeclaredInvisible | earthfront/utils/data_handler.py:22-35 | keys that are not fields, once set, do not appear in `to_dict` |
| DataHandler.Fields | earthfront/utils/data_handler.py:11-20 | a config's attributes are exactly the eight declared fields |
| DataHandler.Config.constructor | earthfront/utils/data_handler.py:11-20 | the eight fields with the given values, defaulting to 1280, 720, 0, 0, 180, True, 60, False |
| DataHandler.Config.ToDict | earthfront/utils/data_handler.py:22-23 | the declared fields with their current values |
| DataHandler.Config.Update | earthfront/utils/data_handler.py:31-35 | a non-dict is a ValueError and changes nothing; a dict's items are set in order, the last value of each key winning |
| DataHandler.Config.FromDict | earthfront/utils/data_handler.py:25-29 | the same as `update` |
| DataHandler.FreshExport | earthfront/utils/data_handler.py:11-23 | `to_dict` of a freshly built config is exactly the values it was built with |
| DataHandler.Color.GetRgb | earthfront/utils/data_handler.py:65-66 | the three channels in order |
| DataHandler.Color.GetRgba | earthfront/utils/data_handler.py:68-69 | the channels followed by the given alpha |
| DataHandler.Color.Hex | earthfront/utils/data_handler.py:58-60 | `#` followed by at least six characters |
| DataHandler.Color.GetHex | earthfront/utils/data_handler.py:62-63 | the directly formatted text equals the `hex` property |
| DataHandler.ColorHexRoundTrip | earthfront/utils/data_handler.py:58-66 | `hex_to_rgb(get_hex())` gives back `get_rgb()` for byte channels |
| DataHandler.NewColor | earthfront/utils/data_handler.py:38-42 | a tuple gives a colour exactly when it has three channels, otherwise a ValueError |
| DataHandler.ParseAll | earthfront/utils/data_handler.py:51 | all parts parse, with their values in order, or a ValueError names a part that does not |
| DataHandler.ParseColorFromStr | earthfront/utils/data_handler.py:46-52 | text not starting with `Color(` is a ValueError, and every failure is a ValueError |
| DataHandler.Color.ToString | earthfront/utils/data_handler.py:71-72 | the text is `Color(` and `)` around the three channels in decimal, separated by `", "` |
| DataHandler.ParseRoundTrip | earthfront/utils/data_handler.py:46-52 | `parse_color_from_str(str(c)) == c` for every integer colour |
| Text.ParseInt | earthfront/utils/color_converter.py:9 | `int(text, base)`: a failure is a ValueError |
| Text.DecimalRoundTrip | earthfront/utils/data_handler.py:72 | `int(str(n)) == n` |
| Text.Hex2RoundTrip | earthfront/utils/color_converter.py:3 | `f"{n:02X}"` of a byte is two hex digits that read back as `n` |
| Text.Split | earthfront/utils/data_handler.py:51 | `str.split` gives at least one piece |
| Text.JoinSplit | earthfront/utils/data_handler.py:51 | joining the pieces of a split with the separator gives back the text |
| Text.SplitFirst | earthfront/utils/data_handler.py:51 | splitting text that begins with a piece free of the separator gives that piece, then the split of the rest |
| Text.Find | earthfront/utils/data_handler.py:51 | the first occurrence of the separator from a position, or none |

## Left out

- Drawing: pygame surfaces, blits, scaling, grid lines, rounded rectangles, fonts and `display.flip`. A scaled map is known by its size and a cell image is an opaque token.
- The high-zoom render's `ValueError` fallback and the map image's subsurface are not modelled; the frame records the region that would be cut out.
- Render.Renderer.FullRender: a window narrower than the panel makes `pygame.Surface((map_width, map_height))` raise for a negative width (earthfront/game/renderer.py:73-79); the model does not raise and records a map surface of that negative width. The settings screen offers only widths of at least 1280 and panel widths of 120 to 400, so only a shrunk window or an edited settings file reaches this case. Render.Renderer.Render inherits this through its full path.
- Render.Renderer.RenderLowZoom: `round(zoom, 2)` is a parameter `zoomKey` of the renderer; float rounding is not modelled.
- Viewport.Camera: positions and zooms are exact reals, not floats; `min_zoom` being above `max_zoom` is kept as in the source (the zoom is then `min_zoom`).
- Viewport.Camera.constructor: requires a positive map width and height, since `update_min_zoom` divides by them (core/game/camera.py:48-49); the `ZeroDivisionError` of an empty map is not modelled.
- Viewport.Camera.UpdateMinZoom: requires a positive map width and height for the same division; the `ZeroDivisionError` is not modelled.
- Viewport.Camera.ApplyZoom: requires a positive factor; the only callers pass 1.2 or 0.8.
- Chunks.ChunkDataExtractor: Python's `hash` of the `(seed, x, y)` tuple and Mersenne Twister output are parameters (`hash`, `generator`); `randint` is a draw reduced modulo the range, not the exact bit-rejection algorithm. Loading the PNG with PIL is a parameter map of pixels; the message printed for an unreadable pixel is left out.
- The SQLite database handler, the main loop `handle_events`, the resize handler, the menu, settings and loading screens, the logger, the path manager and `Theme` are not part of this model.
- Ui.GameUI: the pygame_gui side panel, the chunk-info panel and the button icons are left out.
- DataHandler.NewColor: requires a non-empty tuple; in the source an empty tuple gives a `Color` without channels, since `not hex` tests the builtin `hex` and never raises. The `hexa=` path, which passes the builtin `hex` to `hex_to_rgb`, is left out as well.
- DataHandler.Value: setting values are integers, booleans or strings.
- Text.ParseInt: only ASCII digits are read; Python's other Unicode decimal digits are not modelled.
- Grid.GridManager.constructor: requires a positive cell size, since `map // cell_size` divides by it (earthfront/game/grid_manager.py:19-20); the `ZeroDivisionError` of a zero size is not modelled. The game builds its grid with a cell size of 10 (earthfront/game/game.py:157).
- Grid.GridManager.CellColor: `cell.get('alpha', 255)` never needs its default, since both setters store an alpha.
- Events.EventHandler: `last_cell_color` is `None` or a colour with alpha; the source's `(None, None)` from `get_cell_color` is the `None` case. The grid manager is passed in, rather than read from the game under a differently named attribute.
- Events.EventHandler.HandleGridClick: a highlighted cell that had an image but no colour is removed with its image when the highlight moves on; this is the source's behaviour and is modelled as written.
- Game.GameState: of the game object, only `need_redraw` and the map surface's size are modelled.
- Ui.RoundedButton, Render.Renderer, Grid.GridManager: channel values are 0..255.
