/**
 * The camera of the map view: a centre `(x, y)` in world units, a zoom
 * factor (screen pixels per world unit) and the extents of the viewport,
 * the screen area right of the side panel where the map is drawn.
 */
module Viewport {

  datatype Vec2 = Vec2(x: real, y: real)

  /** Largest zoom the camera accepts. */
  const MaxZoom: real := 15.0
  /** Zoom of a freshly built camera, before it is raised to the minimum. */
  const InitialZoom: real := 3.0

  function RMin(a: real, b: real): real { if a < b then a else b }
  function RMax(a: real, b: real): real { if a < b then b else a }

  /** World coordinate to screen coordinate along one axis. */
  function WorldToScreenAxis(w: real, center: real, zoom: real, viewport: real): real
  {
    (w - center) * zoom + viewport / 2.0
  }

  /** Screen coordinate to world coordinate along one axis; it undoes `WorldToScreenAxis`. */
  function ScreenToWorldAxis(s: real, center: real, zoom: real, viewport: real): (w: real)
    requires zoom != 0.0
    ensures WorldToScreenAxis(w, center, zoom, viewport) == s
  {
    var d := (s - viewport / 2.0) / zoom;
    assert d * zoom == s - viewport / 2.0;
    center + d
  }

  /** The other direction of the round trip: screen then back to world is the identity. */
  lemma WorldScreenWorld(w: real, center: real, zoom: real, viewport: real)
    requires zoom != 0.0
    ensures ScreenToWorldAxis(WorldToScreenAxis(w, center, zoom, viewport), center, zoom, viewport) == w
  {
    var s := WorldToScreenAxis(w, center, zoom, viewport);
    assert s - viewport / 2.0 == (w - center) * zoom;
    assert ((w - center) * zoom) / zoom == w - center;
  }

  /** The zoom at which the whole map just fits the viewport. */
  function MinZoomFor(viewportWidth: real, viewportHeight: real, mapWidth: real, mapHeight: real): real
    requires mapWidth > 0.0 && mapHeight > 0.0
  {
    RMin(viewportWidth / mapWidth, viewportHeight / mapHeight)
  }

  /** At the minimum zoom the map fits the viewport on both axes and fills it on one. */
  lemma MinZoomFitsMap(viewportWidth: real, viewportHeight: real, mapWidth: real, mapHeight: real)
    requires mapWidth > 0.0 && mapHeight > 0.0
    ensures var z := MinZoomFor(viewportWidth, viewportHeight, mapWidth, mapHeight);
      && z * mapWidth <= viewportWidth && z * mapHeight <= viewportHeight
      && (z * mapWidth == viewportWidth || z * mapHeight == viewportHeight)
  {
    var zx, zy := viewportWidth / mapWidth, viewportHeight / mapHeight;
    assert zx * mapWidth == viewportWidth;
    assert zy * mapHeight == viewportHeight;
    if zx <= zy {
      assert zx * mapHeight <= zy * mapHeight;
    } else {
      assert zy * mapWidth <= zx * mapWidth;
    }
  }

  /** `max(lo, min(hi, z))`: a zoom forced into `[lo, hi]` when that range is not empty. */
  function ZoomClamp(z: real, lo: real, hi: real): (r: real)
    ensures lo <= hi ==> lo <= r <= hi
    ensures lo <= z <= hi ==> r == z
    ensures hi < lo ==> r == lo
    ensures r == lo || r == hi || r == z
  {
    RMax(lo, RMin(hi, z))
  }

  /** Half of the world extent visible along an axis of `viewport` screen units. */
  function HalfExtent(viewport: real, zoom: real): real
    requires zoom != 0.0
  {
    (viewport / 2.0) / zoom
  }

  /**
   * The centre coordinate along one axis after clamping: when the visible
   * extent fits into the map, the centre is kept within `[half, mapDim - half]`
   * (and left alone when already there); otherwise it snaps to the midpoint.
   */
  function ClampAxis(c: real, viewport: real, zoom: real, mapDim: real): (r: real)
    requires zoom != 0.0
    ensures var half := HalfExtent(viewport, zoom);
      && (half > mapDim - half ==> r == mapDim / 2.0)
      && (half <= mapDim - half ==> half <= r <= mapDim - half)
      && (half <= c <= mapDim - half ==> r == c)
  {
    var half := HalfExtent(viewport, zoom);
    if half > mapDim - half then mapDim / 2.0
    else RMax(half, RMin(mapDim - half, c))
  }

  /** Clamping twice is clamping once. */
  lemma ClampAxisIdempotent(c: real, viewport: real, zoom: real, mapDim: real)
    requires zoom != 0.0
    ensures ClampAxis(ClampAxis(c, viewport, zoom, mapDim), viewport, zoom, mapDim)
         == ClampAxis(c, viewport, zoom, mapDim)
  {
  }

  /**
   * When the visible extent fits into the map, a clamped centre shows no area
   * outside `[0, mapDim]`: the world coordinates under both viewport edges
   * lie inside the map.
   */
  lemma ClampKeepsViewInsideMap(c: real, viewport: real, zoom: real, mapDim: real)
    requires zoom > 0.0 && viewport >= 0.0
    requires HalfExtent(viewport, zoom) <= mapDim - HalfExtent(viewport, zoom)
    ensures var r := ClampAxis(c, viewport, zoom, mapDim);
      0.0 <= ScreenToWorldAxis(0.0, r, zoom, viewport) && ScreenToWorldAxis(viewport, r, zoom, viewport) <= mapDim
  {
    var half := HalfExtent(viewport, zoom);
    var r := ClampAxis(c, viewport, zoom, mapDim);
    assert (0.0 - viewport / 2.0) / zoom == -half;
    assert (viewport - viewport / 2.0) / zoom == half;
  }

  /**
   * The centre that keeps the world point under screen coordinate `mouse`
   * in place when the zoom changes from `oldZoom` to `newZoom`.
   */
  function AnchoredCenter(center: real, mouse: real, viewport: real, oldZoom: real, newZoom: real): (r: real)
    requires oldZoom != 0.0 && newZoom != 0.0
    ensures ScreenToWorldAxis(mouse, r, newZoom, viewport) == ScreenToWorldAxis(mouse, center, oldZoom, viewport)
  {
    var worldBefore := center + (mouse - viewport / 2.0) / oldZoom;
    worldBefore - (mouse - viewport / 2.0) / newZoom
  }

  class Camera {
    const mapWidth: real
    const mapHeight: real
    var viewportWidth: real
    var viewportHeight: real
    var x: real
    var y: real
    var zoom: real
    var minZoom: real
    const maxZoom: real

    /** The centre is where clamping would leave it. */
    ghost predicate Clamped()
      reads this
      requires zoom != 0.0
    {
      x == ClampAxis(x, viewportWidth, zoom, mapWidth) && y == ClampAxis(y, viewportHeight, zoom, mapHeight)
    }

    ghost predicate Valid()
      reads this
    {
      && mapWidth > 0.0 && mapHeight > 0.0
      && maxZoom == MaxZoom
      && minZoom == MinZoomFor(viewportWidth, viewportHeight, mapWidth, mapHeight)
      && minZoom <= zoom && 0.0 < zoom
      && Clamped()
    }

    /** A camera centred on the map at zoom 3.0, raised to the minimum zoom if that is larger. */
    constructor (mapWidth: real, mapHeight: real, viewportWidth: real, viewportHeight: real)
      requires mapWidth > 0.0 && mapHeight > 0.0
      ensures Valid()
      ensures this.mapWidth == mapWidth && this.mapHeight == mapHeight
      ensures this.viewportWidth == viewportWidth && this.viewportHeight == viewportHeight
      ensures x == mapWidth / 2.0 && y == mapHeight / 2.0
      ensures minZoom == MinZoomFor(viewportWidth, viewportHeight, mapWidth, mapHeight)
      ensures zoom == RMax(InitialZoom, minZoom) && maxZoom == MaxZoom
    {
      this.mapWidth := mapWidth;
      this.mapHeight := mapHeight;
      this.viewportWidth := viewportWidth;
      this.viewportHeight := viewportHeight;
      x := mapWidth / 2.0;
      y := mapHeight / 2.0;
      maxZoom := MaxZoom;
      var mz := MinZoomFor(viewportWidth, viewportHeight, mapWidth, mapHeight);
      minZoom := mz;
      zoom := if InitialZoom < mz then mz else InitialZoom;
      new;
      MidpointIsClamped(viewportWidth, zoom, mapWidth);
      MidpointIsClamped(viewportHeight, zoom, mapHeight);
    }

    /** Recomputes the minimum zoom from the viewport and raises the zoom to it if needed. */
    method UpdateMinZoom()
      requires mapWidth > 0.0 && mapHeight > 0.0
      modifies this`minZoom, this`zoom
      ensures minZoom == MinZoomFor(viewportWidth, viewportHeight, mapWidth, mapHeight)
      ensures zoom == RMax(old(zoom), minZoom)
    {
      minZoom := MinZoomFor(viewportWidth, viewportHeight, mapWidth, mapHeight);
      if zoom < minZoom {
        zoom := minZoom;
      }
    }

    /** Takes the new viewport extents, updates the minimum zoom and re-clamps the centre. */
    method UpdateViewportSize(width: real, height: real)
      requires Valid()
      modifies this
      ensures Valid()
      ensures viewportWidth == width && viewportHeight == height
      ensures minZoom == MinZoomFor(width, height, mapWidth, mapHeight)
      ensures zoom == RMax(old(zoom), minZoom) && zoom >= old(zoom)
      ensures x == ClampAxis(old(x), width, zoom, mapWidth)
      ensures y == ClampAxis(old(y), height, zoom, mapHeight)
    {
      viewportWidth := width;
      viewportHeight := height;
      UpdateMinZoom();
      ClampPosition();
    }

    /**
     * Multiplies the zoom by `factor`, clamped into `[minZoom, maxZoom]`, and
     * moves the centre so that the world point under `mouse` stays there, then
     * clamps the centre. Nothing changes when the clamped zoom equals the old one.
     */
    method ApplyZoom(factor: real, mouse: Vec2)
      requires Valid() && factor > 0.0
      modifies this`x, this`y, this`zoom
      ensures Valid()
      ensures zoom == ZoomClamp(old(zoom) * factor, minZoom, maxZoom)
      ensures zoom == old(zoom) ==> x == old(x) && y == old(y)
      ensures zoom != old(zoom) ==>
        && x == ClampAxis(AnchoredCenter(old(x), mouse.x, viewportWidth, old(zoom), zoom), viewportWidth, zoom, mapWidth)
        && y == ClampAxis(AnchoredCenter(old(y), mouse.y, viewportHeight, old(zoom), zoom), viewportHeight, zoom, mapHeight)
    {
      var oldZoom := zoom;
      var newZoom := ZoomClamp(oldZoom * factor, minZoom, maxZoom);
      assert newZoom == ZoomClamp(old(zoom) * factor, old(minZoom), maxZoom);
      if oldZoom != newZoom {
        ZoomAround(newZoom, mouse);
        assert zoom == newZoom != oldZoom;
      } else {
        assert zoom == oldZoom && x == old(x) && y == old(y);
      }
    }

    /** The zoom-changing branch of `ApplyZoom`: anchor at `mouse`, set the zoom, clamp. */
    method ZoomAround(newZoom: real, mouse: Vec2)
      requires Valid() && minZoom <= newZoom && 0.0 < newZoom
      modifies this`x, this`y, this`zoom
      ensures Valid() && zoom == newZoom
      ensures x == ClampAxis(AnchoredCenter(old(x), mouse.x, viewportWidth, old(zoom), zoom), viewportWidth, zoom, mapWidth)
      ensures y == ClampAxis(AnchoredCenter(old(y), mouse.y, viewportHeight, old(zoom), zoom), viewportHeight, zoom, mapHeight)
    {
      // the world point under the cursor before the zoom stays under it after
      x := AnchoredCenter(x, mouse.x, viewportWidth, zoom, newZoom);
      y := AnchoredCenter(y, mouse.y, viewportHeight, zoom, newZoom);
      zoom := newZoom;
      ClampPosition();
    }

    /** Translates the centre by `(dx, dy)` world units, then clamps it. */
    method Move(dx: real, dy: real)
      requires Valid()
      modifies this`x, this`y
      ensures Valid()
      ensures x == ClampAxis(old(x) + dx, viewportWidth, zoom, mapWidth)
      ensures y == ClampAxis(old(y) + dy, viewportHeight, zoom, mapHeight)
    {
      x := x + dx;
      y := y + dy;
      ClampPosition();
    }

    /** Clamps the centre on each axis separately. */
    method ClampPosition()
      requires zoom > 0.0
      modifies this`x, this`y
      ensures x == ClampAxis(old(x), viewportWidth, zoom, mapWidth)
      ensures y == ClampAxis(old(y), viewportHeight, zoom, mapHeight)
      ensures Clamped()
    {
      ClampAxisIdempotent(x, viewportWidth, zoom, mapWidth);
      ClampAxisIdempotent(y, viewportHeight, zoom, mapHeight);
      var halfW := (viewportWidth / 2.0) / zoom;
      var halfH := (viewportHeight / 2.0) / zoom;
      var minX, maxX := halfW, mapWidth - halfW;
      var minY, maxY := halfH, mapHeight - halfH;
      if minX > maxX {
        x := mapWidth / 2.0;
      } else {
        x := RMax(minX, RMin(maxX, x));
      }
      if minY > maxY {
        y := mapHeight / 2.0;
      } else {
        y := RMax(minY, RMin(maxY, y));
      }
    }

    /** World position to screen position inside the viewport. */
    function WorldToScreen(p: Vec2): (s: Vec2)
      reads this
      requires Valid()
      ensures ScreenToWorldAxis(s.x, x, zoom, viewportWidth) == p.x
      ensures ScreenToWorldAxis(s.y, y, zoom, viewportHeight) == p.y
    {
      WorldScreenWorld(p.x, x, zoom, viewportWidth);
      WorldScreenWorld(p.y, y, zoom, viewportHeight);
      Vec2(WorldToScreenAxis(p.x, x, zoom, viewportWidth), WorldToScreenAxis(p.y, y, zoom, viewportHeight))
    }

    /** Screen position inside the viewport to world position. */
    function ScreenToWorld(s: Vec2): (p: Vec2)
      reads this
      requires Valid()
      ensures WorldToScreenAxis(p.x, x, zoom, viewportWidth) == s.x
      ensures WorldToScreenAxis(p.y, y, zoom, viewportHeight) == s.y
    {
      Vec2(ScreenToWorldAxis(s.x, x, zoom, viewportWidth), ScreenToWorldAxis(s.y, y, zoom, viewportHeight))
    }
  }

  /** The map midpoint is a clamped centre at every zoom. */
  lemma MidpointIsClamped(viewport: real, zoom: real, mapDim: real)
    requires zoom != 0.0
    ensures ClampAxis(mapDim / 2.0, viewport, zoom, mapDim) == mapDim / 2.0
  {
  }
}
