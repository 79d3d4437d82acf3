/**
 * The renderer's bookkeeping: a cache of scaled maps for low zoom levels,
 * bounded at ten entries with the oldest inserted one evicted first, the
 * decision to skip a full redraw, the part of the map cut out at high zoom,
 * and the FPS counter.
 */
module Render {
  import opened Common
  import opened Text
  import opened Viewport
  import opened Grid
  import opened Game

  /** Most scaled maps kept at once. */
  const MaxCached: nat := 10
  /** Frames between two refreshes of the FPS text. */
  const FpsPeriod: nat := 15
  /** Above this zoom the visible part of the map is cut out and scaled; at or below it a cached whole map is used. */
  const HighZoomFrom: real := 1.5
  /** Extra screen pixels drawn around the view at high zoom. */
  const MarginPixels: real := 100.0

  /** A scaled copy of the map image, known by its size. */
  datatype ScaledMap = ScaledMap(w: int, h: int)

  /** What one call of `render` drew. */
  datatype Frame = Quick | LowZoom(scaled: ScaledMap) | HighZoom(region: Rect)

  /** The whole map scaled by `zoom`, as `_render_low_zoom` sizes it. */
  function ScaledSize(mapWidth: int, mapHeight: int, zoom: real): ScaledMap
  {
    ScaledMap(Trunc(mapWidth as real * zoom), Trunc(mapHeight as real * zoom))
  }

  /** `_get_visible_region` for a view with world corners `tl` and `br`: `(x, y, w, h)` with a margin, clipped to the map. */
  function VisibleRegion(tl: Vec2, br: Vec2, zoom: real, mapWidth: int, mapHeight: int): (r: Rect)
    requires zoom > 0.0
    ensures 0 <= r.x && 0 <= r.y
    ensures r.w > 0 ==> r.x + r.w <= mapWidth
    ensures r.h > 0 ==> r.y + r.h <= mapHeight
  {
    var margin := MarginPixels / zoom;
    var x1 := RMax(0.0, tl.x - margin);
    var y1 := RMax(0.0, tl.y - margin);
    var x2 := RMin(mapWidth as real, br.x + margin);
    var y2 := RMin(mapHeight as real, br.y + margin);
    ClipAxis(x1, x2);
    ClipAxis(y1, y2);
    Rect(Trunc(x1), Trunc(y1), Trunc(x2 - x1), Trunc(y2 - y1))
  }

  /** Truncating both ends of `[lo, hi]` with `0 <= lo` never reaches past `hi`. */
  lemma ClipAxis(lo: real, hi: real)
    requires 0.0 <= lo
    ensures 0 <= Trunc(lo)
    ensures Trunc(hi - lo) > 0 ==> (Trunc(lo) + Trunc(hi - lo)) as real <= hi
  {
  }

  /**
   * The cut-out holds every map column from the left edge of the view up to
   * two columns short of its right edge or of the map's.
   */
  lemma VisibleRegionCovers(tl: Vec2, br: Vec2, zoom: real, mapWidth: int, mapHeight: int, px: int)
    requires zoom > 0.0
    requires 0 <= px && tl.x <= px as real
    requires px + 2 <= mapWidth && (px + 2) as real <= br.x
    ensures var r := VisibleRegion(tl, br, zoom, mapWidth, mapHeight);
      r.x <= px < r.x + r.w
  {
    var margin := MarginPixels / zoom;
    var x1 := RMax(0.0, tl.x - margin);
    var x2 := RMin(mapWidth as real, br.x + margin);
    assert x1 <= px as real;
    assert (px + 2) as real <= x2;
  }

  /** The FPS text `f"FPS: {fps}"`. */
  function FpsText(fps: int): string
  {
    "FPS: " + IntToDecimal(fps)
  }

  /** The number after the `FPS: ` label reads back as the rate shown. */
  lemma FpsTextRoundTrip(fps: int)
    ensures var t := FpsText(fps);
      |t| > 5 && t[..5] == "FPS: " && ParseInt(t[5..], 10) == Ok(fps)
  {
    var t := FpsText(fps);
    assert t[5..] == IntToDecimal(fps);
    DecimalRoundTrip(fps);
  }

  /** No key occurs twice. */
  predicate Distinct(s: seq<int>)
  {
    forall i, j :: 0 <= i < j < |s| ==> s[i] != s[j]
  }

  class Renderer {
    const game: GameState
    const mapWidth: int
    const mapHeight: int
    const panelWidth: int
    /** `round(zoom, 2)`, the cache key of a zoom level. */
    const zoomKey: real -> int

    /** `zoom_cache`: its keys in insertion order, and the scaled map of each. */
    var order: seq<int>
    var cache: map<int, ScaledMap>
    var currentCacheZoom: Option<real>
    var lastCameraPos: Option<(real, real)>
    var fpsUpdateCounter: nat
    var lastFps: int
    var fpsText: Option<string>

    ghost predicate Valid()
      reads this
    {
      && |order| <= MaxCached
      && Distinct(order)
      && (forall k :: k in cache <==> k in order)
      && fpsUpdateCounter < FpsPeriod
    }

    constructor (game: GameState, mapWidth: int, mapHeight: int, panelWidth: int, zoomKey: real -> int)
      ensures Valid()
      ensures this.game == game && this.mapWidth == mapWidth && this.mapHeight == mapHeight
      ensures this.panelWidth == panelWidth && this.zoomKey == zoomKey
      ensures order == [] && cache == map[] && currentCacheZoom.None? && lastCameraPos.None?
      ensures fpsUpdateCounter == 0 && lastFps == 0 && fpsText.None?
    {
      this.game := game;
      this.mapWidth := mapWidth;
      this.mapHeight := mapHeight;
      this.panelWidth := panelWidth;
      this.zoomKey := zoomKey;
      order := [];
      cache := map[];
      currentCacheZoom := None;
      lastCameraPos := None;
      fpsUpdateCounter := 0;
      lastFps := 0;
      fpsText := None;
    }

    /** `_can_skip_render`: nothing asked for a redraw, the camera has not moved, a map surface exists and the grid is hidden. */
    predicate CanSkipRender(cameraPos: (real, real), zoom: real, needRedraw: bool, hasSurface: bool, gridVisible: bool): (b: bool)
      reads this
      ensures needRedraw || !hasSurface || gridVisible ==> !b
      ensures b ==> lastCameraPos.Some? && currentCacheZoom.Some?
    {
      && !needRedraw
      && lastCameraPos == Some(cameraPos)
      && currentCacheZoom == Some(zoom)
      && hasSurface
      && !gridVisible
    }

    /**
     * The skip test is only passed by the camera position and zoom the last
     * full frame recorded: any move or zoom forces a full render.
     */
    lemma SkipOnlyAtRecordedCamera(cameraPos: (real, real), zoom: real, needRedraw: bool, hasSurface: bool, gridVisible: bool)
      ensures CanSkipRender(cameraPos, zoom, needRedraw, hasSurface, gridVisible) ==>
        forall p: (real, real), z: real :: (p, z) != (cameraPos, zoom) ==> !CanSkipRender(p, z, needRedraw, hasSurface, gridVisible)
    {
    }

    /** `_update_fps_display`: every 15th frame the measured rate is taken, and the text redone only if it changed. */
    method UpdateFpsDisplay(measured: real)
      requires Valid()
      modifies this`fpsUpdateCounter, this`lastFps, this`fpsText
      ensures Valid()
      ensures fpsUpdateCounter == (old(fpsUpdateCounter) + 1) % FpsPeriod
      ensures fpsUpdateCounter != 0 || Trunc(measured) == old(lastFps) ==>
        lastFps == old(lastFps) && fpsText == old(fpsText)
      ensures fpsUpdateCounter == 0 && Trunc(measured) != old(lastFps) ==>
        lastFps == Trunc(measured) && fpsText == Some(FpsText(lastFps))
    {
      fpsUpdateCounter := fpsUpdateCounter + 1;
      if fpsUpdateCounter >= FpsPeriod {
        fpsUpdateCounter := 0;
        var fps := Trunc(measured);
        if fps != lastFps {
          lastFps := fps;
          fpsText := Some(FpsText(fps));
        }
      }
    }

    /**
     * The cache part of `_render_low_zoom`: a missing zoom level is scaled and
     * inserted, evicting the oldest entry beyond ten; the level's map is returned.
     */
    method RenderLowZoom(zoom: real) returns (scaled: ScaledMap)
      requires Valid()
      modifies this`order, this`cache
      ensures Valid()
      ensures zoomKey(zoom) in cache && scaled == cache[zoomKey(zoom)]
      ensures zoomKey(zoom) in old(cache) ==> cache == old(cache) && order == old(order)
      ensures zoomKey(zoom) !in old(cache) ==> scaled == ScaledSize(mapWidth, mapHeight, zoom)
      ensures zoomKey(zoom) !in old(cache) && |old(order)| < MaxCached ==>
        && order == old(order) + [zoomKey(zoom)]
        && cache == old(cache)[zoomKey(zoom) := scaled]
      ensures zoomKey(zoom) !in old(cache) && |old(order)| == MaxCached ==>
        && order == old(order)[1..] + [zoomKey(zoom)]
        && cache == (old(cache) - {old(order)[0]})[zoomKey(zoom) := scaled]
    {
      var key := zoomKey(zoom);
      if key !in cache {
        var s := ScaledSize(mapWidth, mapHeight, zoom);
        Admit(order, cache, key, s);
        var o, c := order + [key], cache[key := s];
        if |c| > MaxCached {
          o, c := o[1..], c - {o[0]};
        }
        order, cache := o, c;
      }
      scaled := cache[key];
    }

    /** `clear_cache`: no scaled map is kept and the next frame is drawn in full. */
    method ClearCache()
      requires Valid()
      modifies this`order, this`cache, game`needRedraw
      ensures Valid()
      ensures order == [] && cache == map[] && game.needRedraw
    {
      order := [];
      cache := map[];
      game.needRedraw := true;
    }

    /**
     * `render`: skip to the quick path when nothing changed since the last full
     * frame; otherwise draw the whole frame.
     */
    method Render(camera: Camera, grid: GridManager, windowWidth: int, windowHeight: int, measuredFps: real)
      returns (frame: Frame)
      requires Valid() && camera.Valid() && grid.Valid()
      modifies this, game, grid`overlay, grid`overlayDirty
      ensures Valid() && grid.Valid()
      ensures fpsUpdateCounter == (old(fpsUpdateCounter) + 1) % FpsPeriod
      ensures frame.Quick? <==>
        old(CanSkipRender((camera.x, camera.y), camera.zoom, game.needRedraw, game.mapSurface.Some?, grid.visible))
      ensures frame.Quick? ==>
        && order == old(order) && cache == old(cache)
        && grid.overlay == old(grid.overlay) && grid.overlayDirty == old(grid.overlayDirty)
        && lastCameraPos == old(lastCameraPos) && currentCacheZoom == old(currentCacheZoom)
        && game.needRedraw == old(game.needRedraw) && game.mapSurface == old(game.mapSurface)
      ensures !frame.Quick? ==> FullFrame(frame, camera, grid, windowWidth, windowHeight)
    {
      UpdateFpsDisplay(measuredFps);
      if CanSkipRender((camera.x, camera.y), camera.zoom, game.needRedraw, game.mapSurface.Some?, grid.visible) {
        return Quick;
      }
      frame := FullRender(camera, grid, windowWidth, windowHeight);
    }

    /** What a full frame leaves behind: the camera recorded, the redraw request served, the map drawn for the zoom. */
    ghost predicate FullFrame(frame: Frame, camera: Camera, grid: GridManager, windowWidth: int, windowHeight: int)
      reads this, game, camera, grid
      requires camera.Valid()
    {
      && lastCameraPos == Some((camera.x, camera.y)) && currentCacheZoom == Some(camera.zoom)
      && !game.needRedraw && game.mapSurface == Some((windowWidth - panelWidth, windowHeight))
      && (frame.LowZoom? <==> camera.zoom <= HighZoomFrom)
      && (frame.LowZoom? ==> zoomKey(camera.zoom) in cache && frame.scaled == cache[zoomKey(camera.zoom)])
      && (frame.HighZoom? ==>
            frame.region == VisibleRegion(camera.ScreenToWorld(Vec2(0.0, 0.0)),
                                          camera.ScreenToWorld(Vec2(camera.viewportWidth, camera.viewportHeight)),
                                          camera.zoom, mapWidth, mapHeight))
      && (!grid.visible ==>
            CanSkipRender((camera.x, camera.y), camera.zoom, game.needRedraw, game.mapSurface.Some?, grid.visible))
    }

    /** The map part of `_full_render`: above zoom 1.5 the visible region is cut out, otherwise the cached whole map is used. */
    method DrawMap(camera: Camera) returns (frame: Frame)
      requires Valid() && camera.Valid()
      modifies this`order, this`cache
      ensures Valid()
      ensures frame.LowZoom? <==> camera.zoom <= HighZoomFrom
      ensures !frame.Quick?
      ensures frame.LowZoom? ==> zoomKey(camera.zoom) in cache && frame.scaled == cache[zoomKey(camera.zoom)]
      ensures frame.HighZoom? ==>
        && order == old(order) && cache == old(cache)
        && frame.region == VisibleRegion(camera.ScreenToWorld(Vec2(0.0, 0.0)),
                                         camera.ScreenToWorld(Vec2(camera.viewportWidth, camera.viewportHeight)),
                                         camera.zoom, mapWidth, mapHeight)
    {
      if camera.zoom > HighZoomFrom {
        var tl := camera.ScreenToWorld(Vec2(0.0, 0.0));
        var br := camera.ScreenToWorld(Vec2(camera.viewportWidth, camera.viewportHeight));
        frame := HighZoom(VisibleRegion(tl, br, camera.zoom, mapWidth, mapHeight));
      } else {
        var scaled := RenderLowZoom(camera.zoom);
        frame := LowZoom(scaled);
      }
    }

    /** The full path of `render`: resize the map surface if needed, draw the map and the grid, record the camera. */
    method FullRender(camera: Camera, grid: GridManager, windowWidth: int, windowHeight: int)
      returns (frame: Frame)
      requires Valid() && camera.Valid() && grid.Valid()
      modifies this`order, this`cache, this`lastCameraPos, this`currentCacheZoom,
               game`needRedraw, game`mapSurface, grid`overlay, grid`overlayDirty
      ensures Valid() && grid.Valid()
      ensures !frame.Quick? && FullFrame(frame, camera, grid, windowWidth, windowHeight)
      ensures frame.HighZoom? ==> order == old(order) && cache == old(cache)
    {
      var size := (windowWidth - panelWidth, windowHeight);
      if game.mapSurface != Some(size) {
        game.mapSurface := Some(size);
      }
      frame := DrawMap(camera);
      if grid.visible {
        DrawGridLayer(camera, grid);
      }
      lastCameraPos := Some((camera.x, camera.y));
      currentCacheZoom := Some(camera.zoom);
      game.needRedraw := false;
    }
  }

  /** The grid layer of a full frame: lines and overlay are drawn, the grid's cells are untouched. */
  method DrawGridLayer(camera: Camera, grid: GridManager)
    requires camera.Valid() && grid.Valid()
    modifies grid`overlay, grid`overlayDirty
    ensures grid.Valid() && grid.visible == old(grid.visible)
  {
    var _ := grid.Draw(camera);
  }

  /**
   * Inserting a new key into a cache that agrees with its repetition-free
   * order: the cache grows by one, and the order with the key appended, or
   * with the oldest key also dropped, still agrees with it.
   */
  lemma Admit(order: seq<int>, cache: map<int, ScaledMap>, key: int, s: ScaledMap)
    requires Distinct(order) && (forall k :: k in cache <==> k in order) && key !in cache
    ensures |cache[key := s]| == |order| + 1
    ensures Distinct(order + [key]) && forall k :: k in cache[key := s] <==> k in order + [key]
    ensures |order| > 0 ==>
      && (order + [key])[1..] == order[1..] + [key]
      && Distinct(order[1..] + [key])
      && forall k :: k in cache[key := s] - {order[0]} <==> k in order[1..] + [key]
  {
    var o := order + [key];
    assert Distinct(o);
    CacheSize(o, cache[key := s]);
    if |order| > 0 {
      DropOldest(o);
      assert o[0] == order[0] && o[1..] == order[1..] + [key];
    }
  }

  /** Dropping the first key of a repetition-free order leaves exactly the other keys, still without repetition. */
  lemma DropOldest(order: seq<int>)
    requires Distinct(order) && |order| > 0
    ensures Distinct(order[1..])
    ensures forall k :: k in order[1..] <==> k in order && k != order[0]
  {
    forall k | k in order && k != order[0] ensures k in order[1..] {
      var i :| 0 <= i < |order| && order[i] == k;
      assert order[1..][i - 1] == k;
    }
    forall k | k in order[1..] ensures k != order[0] {
      var i :| 0 <= i < |order[1..]| && order[1..][i] == k;
      assert order[i + 1] == k;
    }
  }

  /** A cache whose keys are exactly those of a repetition-free order has as many entries as the order. */
  lemma CacheSize(order: seq<int>, cache: map<int, ScaledMap>)
    requires Distinct(order) && forall k :: k in cache <==> k in order
    ensures |cache| == |order|
  {
    DistinctCard(order);
    assert cache.Keys == set k | k in order by {
      forall k ensures k in cache.Keys <==> k in order {
      }
    }
  }

  lemma {:induction false} DistinctCard(s: seq<int>)
    requires Distinct(s)
    ensures |set k | k in s| == |s|
  {
    if |s| > 0 {
      var init := s[..|s| - 1];
      assert Distinct(init);
      DistinctCard(init);
      assert (set k | k in s) == (set k | k in init) + {s[|s| - 1]};
    }
  }
}
