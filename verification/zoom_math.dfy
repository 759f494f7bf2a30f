/**
 * The viewport-transform engine of editor/src/utils/zoom.ts: clamping a zoom
 * factor, zooming about a fixed screen point, and fitting a content rectangle
 * into the viewport. All arithmetic is over the reals.
 */
module ZoomMath {
  import opened Wrappers
  import opened Geometry

  const DEFAULT_MIN_ZOOM: real := 0.25
  const DEFAULT_MAX_ZOOM: real := 4.0
  /** The padding `fitRectToViewport` uses when its caller gives none. */
  const DEFAULT_FIT_PADDING: real := 32.0

  /** `Math.min(max, Math.max(min, zoom))`. */
  function ClampZoom(zoom: real, min: real, max: real): (r: real)
    ensures r <= max
    ensures min <= max ==> min <= r
    ensures min <= zoom <= max ==> r == zoom
    ensures zoom <= min <= max ==> r == min
    ensures max <= zoom ==> r == max
    ensures max < min ==> r == max
  {
    Min(max, Max(min, zoom))
  }

  /** Where a content point appears on screen under a transform. */
  function ToScreen(t: ViewportTransform, c: Point): Point {
    Point(c.x * t.zoom + t.offsetX, c.y * t.zoom + t.offsetY)
  }

  /** The content point shown at a screen point (the inverse of ToScreen). */
  function ToContent(t: ViewportTransform, p: Point): (c: Point)
    requires t.zoom != 0.0
    ensures ToScreen(t, c) == p
  {
    DivThenScale(p.x - t.offsetX, t.zoom);
    DivThenScale(p.y - t.offsetY, t.zoom);
    Point((p.x - t.offsetX) / t.zoom, (p.y - t.offsetY) / t.zoom)
  }

  /** Dividing by a non-zero factor and scaling back gives the original value. */
  lemma DivThenScale(a: real, z: real)
    requires z != 0.0
    ensures a / z * z == a
  {
  }

  /** The zoom `zoomToPointTransform` divides by: a zero zoom is read as 1. */
  function SafeZoom(t: ViewportTransform): (z: real)
    ensures z != 0.0
    ensures t.zoom != 0.0 ==> z == t.zoom
  {
    if t.zoom == 0.0 then 1.0 else t.zoom
  }

  /** The transform that sets the zoom to the clamped target and keeps `point` where it is on screen. */
  function ZoomToPointTransform(current: ViewportTransform, point: Point, newZoom: real): (r: ViewportTransform)
    ensures r.zoom == ClampZoom(newZoom, DEFAULT_MIN_ZOOM, DEFAULT_MAX_ZOOM)
    ensures DEFAULT_MIN_ZOOM <= r.zoom <= DEFAULT_MAX_ZOOM
  {
    var nextZoom := ClampZoom(newZoom, DEFAULT_MIN_ZOOM, DEFAULT_MAX_ZOOM);
    var scale := nextZoom / SafeZoom(current);
    ViewportTransform(
      nextZoom,
      point.x - scale * (point.x - current.offsetX),
      point.y - scale * (point.y - current.offsetY))
  }

  /** One axis of the stationarity argument: a content coordinate shown at `p` is still shown there. */
  lemma ScaleAboutPoint(p: real, off: real, z: real, z': real)
    requires z != 0.0
    ensures (p - off) / z * z' + (p - z' / z * (p - off)) == p
  {
    calc {
      (p - off) / z * z';
    ==
      z' / z * (p - off);
    }
  }

  /**
   * Stationarity: the content point that was under `point` (reading a zero
   * zoom as 1) is under `point` after the zoom too.
   */
  lemma ZoomKeepsPointStationary(current: ViewportTransform, point: Point, newZoom: real)
    ensures var before := current.(zoom := SafeZoom(current));
            ToScreen(ZoomToPointTransform(current, point, newZoom), ToContent(before, point)) == point
  {
    var r := ZoomToPointTransform(current, point, newZoom);
    var z := SafeZoom(current);
    ScaleAboutPoint(point.x, current.offsetX, z, r.zoom);
    ScaleAboutPoint(point.y, current.offsetY, z, r.zoom);
  }

  /** A zoom of exactly 0 behaves as a zoom of 1 with the same offsets. */
  lemma ZeroZoomReadsAsOne(current: ViewportTransform, point: Point, newZoom: real)
    requires current.zoom == 0.0
    ensures ZoomToPointTransform(current, point, newZoom)
         == ZoomToPointTransform(current.(zoom := 1.0), point, newZoom)
  {
    var one := current.(zoom := 1.0);
    var nextZoom := ClampZoom(newZoom, DEFAULT_MIN_ZOOM, DEFAULT_MAX_ZOOM);
    assert SafeZoom(current) == SafeZoom(one);
    var scale := nextZoom / SafeZoom(current);
    assert scale == nextZoom / SafeZoom(one);
    assert ZoomToPointTransform(current, point, newZoom)
        == ViewportTransform(nextZoom, point.x - scale * (point.x - current.offsetX), point.y - scale * (point.y - current.offsetY));
    assert ZoomToPointTransform(one, point, newZoom)
        == ViewportTransform(nextZoom, point.x - scale * (point.x - one.offsetX), point.y - scale * (point.y - one.offsetY));
  }

  /** The optional zoom limits of `fitRectToViewport`; an absent one takes the default. */
  datatype ZoomLimits = ZoomLimits(min: Option<real>, max: Option<real>)

  const DefaultLimits: ZoomLimits := ZoomLimits(None, None)

  function MinZoom(limits: ZoomLimits): real { limits.min.GetOr(DEFAULT_MIN_ZOOM) }
  function MaxZoom(limits: ZoomLimits): real { limits.max.GetOr(DEFAULT_MAX_ZOOM) }

  /** Viewport room left after padding on both sides, floored at 1. */
  function Available(extent: real, padding: real): (a: real)
    ensures a >= 1.0
    ensures a >= extent - 2.0 * padding
    ensures a == extent - 2.0 * padding || a == 1.0
  {
    Max(extent - padding * 2.0, 1.0)
  }

  /** A content extent floored at 1, so that the fit ratio is defined. */
  function Effective(extent: real): (e: real)
    ensures e >= 1.0 && e >= extent
    ensures e == extent || e == 1.0
  {
    Max(extent, 1.0)
  }

  /** The largest zoom at which the (floored) content fits the available room on both axes. */
  function FitRatio(content: Rect, viewport: Size, padding: real): real {
    Min(Available(viewport.width, padding) / Effective(content.width),
        Available(viewport.height, padding) / Effective(content.height))
  }

  /** One axis of the centring offset: `(view - extent * zoom) / 2 - lead * zoom`. */
  function CentringOffset(lead: real, extent: real, zoom: real, view: real): (o: real)
    ensures (lead + extent / 2.0) * zoom + o == view / 2.0
  {
    assert (lead + extent / 2.0) * zoom == lead * zoom + extent * zoom / 2.0;
    (view - extent * zoom) / 2.0 - lead * zoom
  }

  /** The middle of a content rectangle, and the middle of the viewport. */
  function MiddleOf(r: Rect): Point { Point(r.CenterX(), r.CenterY()) }
  function ViewportMiddle(viewport: Size): Point { Point(viewport.width / 2.0, viewport.height / 2.0) }

  /** The transform at a given zoom whose offsets put the middle of `content` on the middle of `viewport`. */
  function CentredAt(content: Rect, viewport: Size, zoom: real): (r: ViewportTransform)
    ensures r.zoom == zoom
    ensures ToScreen(r, MiddleOf(content)) == ViewportMiddle(viewport)
  {
    ViewportTransform(
      zoom,
      CentringOffset(content.left, content.width, zoom, viewport.width),
      CentringOffset(content.top, content.height, zoom, viewport.height))
  }

  /**
   * The transform that shows `content` centred in `viewport`, as large as the
   * padded viewport allows, with the zoom clamped to the limits.
   */
  function FitRectToViewport(content: Rect, viewport: Size, padding: real, limits: ZoomLimits): (r: ViewportTransform)
    ensures r.zoom == FitZoom(content, viewport, padding, limits)
    ensures MinZoom(limits) <= MaxZoom(limits) ==> MinZoom(limits) <= r.zoom <= MaxZoom(limits)
    ensures ToScreen(r, MiddleOf(content)) == ViewportMiddle(viewport)
  {
    CentredAt(content, viewport, FitZoom(content, viewport, padding, limits))
  }

  /** The zoom `fitRectToViewport` picks: the fit ratio clamped to the limits. */
  function FitZoom(content: Rect, viewport: Size, padding: real, limits: ZoomLimits): real {
    ClampZoom(FitRatio(content, viewport, padding), MinZoom(limits), MaxZoom(limits))
  }

  lemma MulBelowQuotient(z: real, a: real, e: real)
    requires e > 0.0 && z <= a / e
    ensures z * e <= a
  {
    assert z * e <= (a / e) * e;
  }

  lemma MulAtQuotient(a: real, e: real)
    requires e > 0.0
    ensures (a / e) * e == a
  {
  }

  /**
   * The fit is as large as possible and no larger: unless the zoom was raised
   * to the minimum, the floored content fits the padded viewport on both axes;
   * unless it was capped at a limit, it fills that room exactly on one axis.
   */
  lemma FitIsLargestThatFits(content: Rect, viewport: Size, padding: real, limits: ZoomLimits)
    requires MinZoom(limits) <= MaxZoom(limits)
    ensures var z := FitZoom(content, viewport, padding, limits);
            z == MinZoom(limits)
            || (z * Effective(content.width) <= Available(viewport.width, padding)
                && z * Effective(content.height) <= Available(viewport.height, padding))
    ensures var z := FitZoom(content, viewport, padding, limits);
            z == MinZoom(limits) || z == MaxZoom(limits)
            || z * Effective(content.width) == Available(viewport.width, padding)
            || z * Effective(content.height) == Available(viewport.height, padding)
  {
    FitZoomIsClampedRatio(content, viewport, padding, limits);
    ClampedFit(FitZoom(content, viewport, padding, limits),
               Available(viewport.width, padding), Effective(content.width),
               Available(viewport.height, padding), Effective(content.height), MinZoom(limits), MaxZoom(limits));
  }

  /** The fit zoom is the smaller of the two axis ratios, clamped. */
  lemma FitZoomIsClampedRatio(content: Rect, viewport: Size, padding: real, limits: ZoomLimits)
    ensures FitZoom(content, viewport, padding, limits)
         == ClampZoom(Min(Available(viewport.width, padding) / Effective(content.width),
                          Available(viewport.height, padding) / Effective(content.height)),
                      MinZoom(limits), MaxZoom(limits))
  {
  }

  /** The fit property on plain numbers: the clamped smaller ratio fits both axes and fills one, unless a limit intervenes. */
  lemma ClampedFit(z: real, aw: real, ew: real, ah: real, eh: real, min: real, max: real)
    requires ew > 0.0 && eh > 0.0 && min <= max
    requires z == ClampZoom(Min(aw / ew, ah / eh), min, max)
    ensures z == min || (z * ew <= aw && z * eh <= ah)
    ensures z == min || z == max || z * ew == aw || z * eh == ah
  {
    var fit := Min(aw / ew, ah / eh);
    if z != min {
      assert z <= fit;
      MulBelowQuotient(z, aw, ew);
      MulBelowQuotient(z, ah, eh);
      if z != max {
        assert z == fit;
        if fit == aw / ew {
          MulAtQuotient(aw, ew);
        } else {
          MulAtQuotient(ah, eh);
        }
      }
    }
  }

  /** Zoom-at-pointer from a neutral view: zoom 2 about (120, 80) gives offsets (-120, -80). */
  lemma ZoomAtPointerExample()
    ensures ZoomToPointTransform(ViewportTransform(1.0, 0.0, 0.0), Point(120.0, 80.0), 2.0)
         == ViewportTransform(2.0, -120.0, -80.0)
  {
  }

  /** 100x50 content in a 400x200 viewport with padding 20 is shown at zoom 3.2 with offsets (40, 20). */
  lemma FitExample()
    ensures FitRectToViewport(Rect(0.0, 0.0, 100.0, 50.0), Size(400.0, 200.0), 20.0, DefaultLimits)
         == ViewportTransform(3.2, 40.0, 20.0)
  {
    var content, viewport := Rect(0.0, 0.0, 100.0, 50.0), Size(400.0, 200.0);
    assert Available(400.0, 20.0) / Effective(100.0) == 3.6;
    assert Available(200.0, 20.0) / Effective(50.0) == 3.2;
    assert FitRatio(content, viewport, 20.0) == 3.2;
    assert CentringOffset(0.0, 100.0, 3.2, 400.0) == 40.0;
    assert CentringOffset(0.0, 50.0, 3.2, 200.0) == 20.0;
  }

  /** Content far larger than the viewport is not shown below the default minimum zoom. */
  lemma FitClampsToDefaultMinimum()
    ensures FitRectToViewport(Rect(0.0, 0.0, 1000.0, 1000.0), Size(200.0, 200.0), 20.0, DefaultLimits).zoom
         == DEFAULT_MIN_ZOOM
  {
  }
}
