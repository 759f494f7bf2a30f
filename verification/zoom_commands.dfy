/**
 * The zoom commands (editor/src/commands/zoom.ts): zoom in and out by a fixed
 * step about the viewport centre, zoom to an exact value, reset the view, and
 * fit every visible object into the viewport. Each command writes the new
 * transform to the canvas and to the store, so the two agree afterwards.
 */
module ZoomCommands {
  import opened Wrappers
  import opened Geometry
  import opened Seqs
  import opened Scene
  import opened CanvasStore
  import opened CommandUtils
  import opened ZoomMath

  const ZOOM_STEP: real := 1.2

  /** The padding `fitToScreen` passes to `fitRectToViewport`. */
  const FIT_SCREEN_PADDING: real := 40.0

  /** Zoom 1 with no offset: the view `resetView` restores. */
  const Identity: ViewportTransform := ViewportTransform(1.0, 0.0, 0.0)

  /** The limits `fitToScreen` passes: the defaults, spelt out. */
  const FitLimits: ZoomLimits := ZoomLimits(Some(DEFAULT_MIN_ZOOM), Some(DEFAULT_MAX_ZOOM))

  /**
   * The canvas's current view as the commands read it: a zero zoom reads as 1
   * and a missing viewport transform as no offset.
   */
  function CurrentTransform(c: Canvas): (t: ViewportTransform)
    ensures t.zoom != 0.0
    ensures c.zoom != 0.0 ==> t.zoom == c.zoom
    ensures c.zoom == 0.0 ==> t.zoom == 1.0
    ensures c.viewportTransform.None? ==> t.offsetX == 0.0 && t.offsetY == 0.0
    ensures c.viewportTransform.Some? ==>
      t.offsetX == c.viewportTransform.value.offsetX && t.offsetY == c.viewportTransform.value.offsetY
  {
    var zoom := if c.zoom == 0.0 then 1.0 else c.zoom;
    match c.viewportTransform
    case None => ViewportTransform(zoom, 0.0, 0.0)
    case Some(vpt) => ViewportTransform(zoom, vpt.offsetX, vpt.offsetY)
  }

  /** The viewport size: the store's, each side falling back to the canvas's when the store holds 0. */
  function ViewportSize(c: Canvas, s: Store): (size: Size)
    ensures size.width == (if s.viewportSize.width == 0.0 then c.width else s.viewportSize.width)
    ensures size.height == (if s.viewportSize.height == 0.0 then c.height else s.viewportSize.height)
  {
    Size(
      if s.viewportSize.width == 0.0 then c.width else s.viewportSize.width,
      if s.viewportSize.height == 0.0 then c.height else s.viewportSize.height)
  }

  /** Writes a transform to the canvas (zoom and viewport transform) and to the store's view. */
  function ApplyTransform(c: Canvas, s: Store, t: ViewportTransform): (r: (Canvas, Store))
    ensures r.1 == SetViewportTransform(s, t)
    ensures r.0.(zoom := c.zoom, viewportTransform := c.viewportTransform) == c
    ensures t.zoom != 0.0 ==> CurrentTransform(r.0) == t
  {
    (c.(zoom := t.zoom, viewportTransform := Some(t)), SetViewportTransform(s, t))
  }

  /** Applying a transform leaves the viewport size the commands read unchanged. */
  lemma ApplyKeepsViewportSize(c: Canvas, s: Store, t: ViewportTransform)
    ensures var r := ApplyTransform(c, s, t); ViewportSize(r.0, r.1) == ViewportSize(c, s)
  {
  }

  /** `zoomToPointTransform` about the viewport centre, to a target computed from the current zoom. */
  function ZoomAboutCentre(c: Canvas, s: Store, target: real -> real): ViewportTransform {
    var t := CurrentTransform(c);
    ZoomToPointTransform(t, ViewportMiddle(ViewportSize(c, s)), target(t.zoom))
  }

  /** Runs a command that always succeeds on a canvas and applies the transform it computes. */
  function ApplyWith(ctx: Context, next: (Canvas, Store) -> ViewportTransform): (out: (bool, Context))
    ensures ctx.canvas.None? ==> out == (false, ctx)
    ensures ctx.canvas.Some? ==>
      var c := ctx.canvas.value;
      var r := ApplyTransform(c, ctx.store, next(c, ctx.store));
      out == (true, Context(Some(r.0), r.1))
  {
    WithCanvas(ctx, (c: Canvas, s: Store) =>
      var r := ApplyTransform(c, s, next(c, s));
      Step(Returned(true), r.0, r.1))
  }

  /**
   * Zoom by a factor about the viewport centre. It needs a canvas; the new
   * view goes to both the canvas and the store, and nothing else in the store
   * changes. `ZoomByFactorView` says what the new view is.
   */
  function ZoomByFactor(ctx: Context, factor: real): (out: (bool, Context))
    ensures out.0 <==> ctx.canvas.Some?
    ensures !out.0 ==> out.1 == ctx
    ensures ctx.canvas.Some? ==>
      && out.1.canvas.Some? && CurrentTransform(out.1.canvas.value) == out.1.store.view
      && out.1.store.(view := ctx.store.view) == ctx.store
  {
    ApplyWith(ctx, (c: Canvas, s: Store) => ZoomAboutCentre(c, s, z => z * factor))
  }

  /** Zoom in: one step up. */
  function ZoomIn(ctx: Context): (bool, Context) {
    ZoomByFactor(ctx, ZOOM_STEP)
  }

  /** Zoom out: one step down. */
  function ZoomOut(ctx: Context): (bool, Context) {
    ZoomByFactor(ctx, 1.0 / ZOOM_STEP)
  }

  /** `p - (z'/z)(p - o)`: one offset of zooming about a screen coordinate `p` from zoom z to z'. */
  lemma ZoomBackOffset(p: real, o: real, z: real, z': real)
    requires z != 0.0 && z' != 0.0
    ensures p - z / z' * (p - (p - z' / z * (p - o))) == o
  {
    assert p - (p - z' / z * (p - o)) == z' / z * (p - o);
    assert z / z' * (z' / z * (p - o)) == (z / z' * (z' / z)) * (p - o);
    assert z / z' * (z' / z) == 1.0;
  }

  /**
   * The view after a zoom by a factor: the new zoom is the clamped product,
   * the content under the viewport centre stays under it, and the next
   * command reads back this view and the same viewport size.
   */
  lemma ZoomByFactorView(ctx: Context, factor: real)
    requires ctx.canvas.Some?
    ensures var c, s, out := ctx.canvas.value, ctx.store, ZoomByFactor(ctx, factor).1;
      var before, centre := CurrentTransform(c), ViewportMiddle(ViewportSize(c, s));
      && out.canvas.Some?
      && out.store.view == ZoomToPointTransform(before, centre, before.zoom * factor)
      && out.store.view.zoom == ClampZoom(before.zoom * factor, DEFAULT_MIN_ZOOM, DEFAULT_MAX_ZOOM)
      && ToScreen(out.store.view, ToContent(before, centre)) == centre
      && CurrentTransform(out.canvas.value) == out.store.view
      && ViewportSize(out.canvas.value, out.store) == ViewportSize(c, s)
  {
    var c, s := ctx.canvas.value, ctx.store;
    var before, centre := CurrentTransform(c), ViewportMiddle(ViewportSize(c, s));
    var next := ZoomToPointTransform(before, centre, before.zoom * factor);
    assert next == ZoomAboutCentre(c, s, z => z * factor);
    var r := ApplyTransform(c, s, next);
    assert ApplyWith(ctx, (c: Canvas, s: Store) => ZoomAboutCentre(c, s, z => z * factor)) == (true, Context(Some(r.0), r.1));
    assert ZoomByFactor(ctx, factor).1 == Context(Some(r.0), r.1);
    ApplyKeepsViewportSize(c, s, next);
    ZoomKeepsPointStationary(before, centre, before.zoom * factor);
  }

  /** Zooming from z to z' about a point and then back from z' to z restores the offsets. */
  lemma ZoomThereAndBack(t: ViewportTransform, p: Point, z': real)
    requires t.zoom != 0.0 && z' != 0.0
    requires DEFAULT_MIN_ZOOM <= t.zoom <= DEFAULT_MAX_ZOOM && DEFAULT_MIN_ZOOM <= z' <= DEFAULT_MAX_ZOOM
    ensures ZoomToPointTransform(ZoomToPointTransform(t, p, z'), p, t.zoom) == t
  {
    var mid := ZoomToPointTransform(t, p, z');
    assert mid == ViewportTransform(z', p.x - z' / t.zoom * (p.x - t.offsetX), p.y - z' / t.zoom * (p.y - t.offsetY));
    ZoomBackOffset(p.x, t.offsetX, t.zoom, z');
    ZoomBackOffset(p.y, t.offsetY, t.zoom, z');
  }

  /**
   * Zooming in and then out returns to the same view, as long as neither
   * step was clamped: the zoom and the offsets are both restored.
   */
  lemma ZoomInThenOutRestores(ctx: Context)
    requires ctx.canvas.Some?
    requires var z := CurrentTransform(ctx.canvas.value).zoom;
      DEFAULT_MIN_ZOOM <= z && z * ZOOM_STEP <= DEFAULT_MAX_ZOOM
    ensures ZoomOut(ZoomIn(ctx).1).1.store.view == CurrentTransform(ctx.canvas.value)
  {
    var c, s := ctx.canvas.value, ctx.store;
    var before := CurrentTransform(c);
    var centre := ViewportMiddle(ViewportSize(c, s));
    var mid := ZoomIn(ctx).1;
    ZoomByFactorView(ctx, ZOOM_STEP);
    ZoomByFactorView(mid, 1.0 / ZOOM_STEP);
    var z' := before.zoom * ZOOM_STEP;
    assert mid.store.view == ZoomToPointTransform(before, centre, z');
    assert z' * (1.0 / ZOOM_STEP) == before.zoom;
    ZoomThereAndBack(before, centre, z');
  }

  /** Zoom to an exact value about the viewport centre (clamped to the default limits). `SetExactZoomView` says what the new view is. */
  function SetExactZoom(ctx: Context, value: real): (out: (bool, Context))
    ensures out.0 <==> ctx.canvas.Some?
    ensures !out.0 ==> out.1 == ctx
    ensures ctx.canvas.Some? ==>
      && out.1.canvas.Some? && CurrentTransform(out.1.canvas.value) == out.1.store.view
      && out.1.store.(view := ctx.store.view) == ctx.store
  {
    ApplyWith(ctx, (c: Canvas, s: Store) => ZoomAboutCentre(c, s, z => value))
  }

  /** The view after an exact zoom: the clamped value, with the content under the viewport centre kept there. */
  lemma SetExactZoomView(ctx: Context, value: real)
    requires ctx.canvas.Some?
    ensures var c, s, out := ctx.canvas.value, ctx.store, SetExactZoom(ctx, value).1;
      var before, centre := CurrentTransform(c), ViewportMiddle(ViewportSize(c, s));
      && out.store.view.zoom == ClampZoom(value, DEFAULT_MIN_ZOOM, DEFAULT_MAX_ZOOM)
      && ToScreen(out.store.view, ToContent(before, centre)) == centre
  {
    var c, s := ctx.canvas.value, ctx.store;
    var before, centre := CurrentTransform(c), ViewportMiddle(ViewportSize(c, s));
    var next := ZoomToPointTransform(before, centre, value);
    assert next == ZoomAboutCentre(c, s, z => value);
    assert SetExactZoom(ctx, value).1.store.view == next;
    ZoomKeepsPointStationary(before, centre, value);
  }

  /** Actual size: an exact zoom of 1. */
  function ActualSize(ctx: Context): (bool, Context) {
    SetExactZoom(ctx, 1.0)
  }

  /** Reset: zoom 1, no offset, on the canvas and in the store. */
  function ResetView(ctx: Context): (out: (bool, Context))
    ensures out.0 <==> ctx.canvas.Some?
    ensures !out.0 ==> out.1 == ctx
    ensures out.0 ==>
      && out.1.store == SetViewportTransform(ctx.store, Identity)
      && out.1.canvas.Some? && CurrentTransform(out.1.canvas.value) == Identity
  {
    ApplyWith(ctx, (c: Canvas, s: Store) => Identity)
  }

  /** The reset command shows as active when the view is within a hundredth of zoom 1 and a pixel of no offset. */
  predicate ResetIsActive(s: Store) {
    Abs(s.view.zoom - 1.0) < 0.01 && Abs(s.view.offsetX) < 1.0 && Abs(s.view.offsetY) < 1.0
  }

  /** The actual-size command shows as active when the zoom is within a hundredth of 1. */
  predicate ActualSizeIsActive(s: Store) {
    Abs(s.view.zoom - 1.0) < 0.01
  }

  /** After a reset both indicators are on; after actual size the actual-size indicator is on. */
  lemma IndicatorsAfterCommands(ctx: Context)
    requires ctx.canvas.Some?
    ensures ResetIsActive(ResetView(ctx).1.store) && ActualSizeIsActive(ResetView(ctx).1.store)
    ensures ActualSizeIsActive(ActualSize(ctx).1.store)
  {
  }

  /** The reset indicator implies the actual-size indicator. */
  lemma ResetActiveImpliesActualActive(s: Store)
    ensures ResetIsActive(s) ==> ActualSizeIsActive(s)
  {
  }

  /** The objects `fitToScreen` takes into account. */
  function VisibleObjects(c: Canvas): (objs: seq<CanvasObject>)
    ensures forall o :: o in objs <==> o in c.objects && o.visible
  {
    Filter(c.objects, (o: CanvasObject) => o.visible)
  }

  /**
   * The rectangle `fitToScreen` fits: the union of the boxes (smallest left
   * and top, largest right and bottom), its sides floored at 1.
   */
  function UnionBox(rs: seq<Rect>): (u: Rect)
    requires |rs| > 0
    ensures u.width >= 1.0 && u.height >= 1.0
    ensures forall i :: 0 <= i < |rs| ==>
      && u.left <= rs[i].left && u.top <= rs[i].top
      && rs[i].Right() <= u.Right() && rs[i].Bottom() <= u.Bottom()
    ensures (exists i :: 0 <= i < |rs| && rs[i].left == u.left)
         && (exists i :: 0 <= i < |rs| && rs[i].top == u.top)
  {
    var left, top := MinOf(Leadings(rs, Horizontal)), MinOf(Leadings(rs, Vertical));
    var right, bottom := MaxOf(Trailings(rs, Horizontal)), MaxOf(Trailings(rs, Vertical));
    Rect(left, top, Max(right - left, 1.0), Max(bottom - top, 1.0))
  }

  /** The union's right and bottom edges are reached by some box unless the side was floored at 1. */
  lemma UnionBoxIsTight(rs: seq<Rect>)
    requires |rs| > 0
    ensures var u := UnionBox(rs);
      && (u.width == 1.0 || exists i :: 0 <= i < |rs| && rs[i].Right() == u.Right())
      && (u.height == 1.0 || exists i :: 0 <= i < |rs| && rs[i].Bottom() == u.Bottom())
  {
    var u := UnionBox(rs);
    var right, bottom := MaxOf(Trailings(rs, Horizontal)), MaxOf(Trailings(rs, Vertical));
    var i :| 0 <= i < |rs| && Trailings(rs, Horizontal)[i] == right;
    var j :| 0 <= j < |rs| && Trailings(rs, Vertical)[j] == bottom;
    assert u.width == 1.0 || rs[i].Right() == u.Right();
    assert u.height == 1.0 || rs[j].Bottom() == u.Bottom();
  }

  /** The transform `fitToScreen` applies: identity with nothing visible, otherwise the fit of the union box. */
  function FitTransform(c: Canvas, s: Store): ViewportTransform {
    var visible := VisibleObjects(c);
    if |visible| == 0 then Identity
    else FitRectToViewport(UnionBox(BoundsOf(visible)), ViewportSize(c, s), FIT_SCREEN_PADDING, FitLimits)
  }

  /** Fit to screen: needs a canvas, and writes the fitted view to the canvas and the store. `FitToScreenView` says what the view is. */
  function FitToScreen(ctx: Context): (out: (bool, Context))
    ensures out.0 <==> ctx.canvas.Some?
    ensures !out.0 ==> out.1 == ctx
    ensures ctx.canvas.Some? ==>
      && out.1.canvas.Some? && CurrentTransform(out.1.canvas.value) == out.1.store.view
      && out.1.store.(view := ctx.store.view) == ctx.store
  {
    ApplyWith(ctx, FitTransform)
  }

  /**
   * The view after fitting: with nothing visible the view is reset;
   * otherwise the zoom lies within the default limits and the middle of the
   * union of the visible objects' boxes is shown at the middle of the viewport.
   */
  lemma FitToScreenView(ctx: Context)
    requires ctx.canvas.Some?
    ensures var c, s, out := ctx.canvas.value, ctx.store, FitToScreen(ctx).1;
      var visible := VisibleObjects(c);
      && (|visible| == 0 ==> out.store.view == Identity)
      && (|visible| > 0 ==>
            && DEFAULT_MIN_ZOOM <= out.store.view.zoom <= DEFAULT_MAX_ZOOM
            && ToScreen(out.store.view, MiddleOf(UnionBox(BoundsOf(visible)))) == ViewportMiddle(ViewportSize(c, s)))
  {
    var c, s := ctx.canvas.value, ctx.store;
    assert FitToScreen(ctx).1.store.view == FitTransform(c, s);
  }
}
