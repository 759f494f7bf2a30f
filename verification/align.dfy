/**
 * Alignment of a multi-object selection (editor/src/commands/align.ts). The
 * bounding boxes are snapshotted first; the extremes `minX`, `maxX`, `minY`,
 * `maxY` of their edges are taken once; every object is then moved along one
 * axis only.
 */
module Align {
  import opened Geometry
  import opened Scene
  import opened CommandUtils

  datatype AlignMode = Left | Right | Center | Top | Bottom | Middle

  /** Which edge (or the middle) every box is brought to. */
  datatype Anchor = Start | End | Mid

  function AxisOf(mode: AlignMode): Axis {
    if mode == Left || mode == Right || mode == Center then Horizontal else Vertical
  }

  function AnchorOf(mode: AlignMode): Anchor {
    match mode
    case Left => Start
    case Top => Start
    case Right => End
    case Bottom => End
    case Center => Mid
    case Middle => Mid
  }

  /** `minX` (or `minY`): the smallest leading edge of the selection. */
  function LowEdge(rs: seq<Rect>, axis: Axis): real
    requires |rs| > 0
  {
    MinOf(Leadings(rs, axis))
  }

  /** `maxX` (or `maxY`): the largest trailing edge of the selection. */
  function HighEdge(rs: seq<Rect>, axis: Axis): real
    requires |rs| > 0
  {
    MaxOf(Trailings(rs, axis))
  }

  /** The move one box gets, given the extremes of the whole selection. */
  function AlignDelta(r: Rect, mode: AlignMode, lo: real, hi: real): Delta {
    var axis := AxisOf(mode);
    var amount :=
      match AnchorOf(mode)
      case Start => lo - Leading(r, axis)
      case End => hi - Trailing(r, axis)
      case Mid => (lo + hi) / 2.0 - CenterOn(r, axis);
    AlongAxis(axis, amount)
  }

  function AlignDeltas(rs: seq<Rect>, mode: AlignMode): (ds: seq<Delta>)
    requires |rs| > 0
    ensures |ds| == |rs|
  {
    var lo, hi := LowEdge(rs, AxisOf(mode)), HighEdge(rs, AxisOf(mode));
    seq(|rs|, i requires 0 <= i < |rs| => AlignDelta(rs[i], mode, lo, hi))
  }

  /**
   * The boxes after alignment: every leading edge at `minX`, every trailing
   * edge at `maxX`, or every centre at the middle of the two, on the mode's
   * axis; the other axis and all sizes are untouched.
   */
  function Aligned(rs: seq<Rect>, mode: AlignMode): (out: seq<Rect>)
    requires |rs| > 0
    ensures |out| == |rs|
    ensures forall i :: 0 <= i < |rs| ==>
      && out[i].width == rs[i].width && out[i].height == rs[i].height
      && Across(out[i], AxisOf(mode)) == Across(rs[i], AxisOf(mode))
    ensures AnchorOf(mode) == Start ==>
      forall i :: 0 <= i < |rs| ==> Leading(out[i], AxisOf(mode)) == LowEdge(rs, AxisOf(mode))
    ensures AnchorOf(mode) == End ==>
      forall i :: 0 <= i < |rs| ==> Trailing(out[i], AxisOf(mode)) == HighEdge(rs, AxisOf(mode))
    ensures AnchorOf(mode) == Mid ==>
      forall i :: 0 <= i < |rs| ==>
        CenterOn(out[i], AxisOf(mode)) == (LowEdge(rs, AxisOf(mode)) + HighEdge(rs, AxisOf(mode))) / 2.0
  {
    var ds := AlignDeltas(rs, mode);
    seq(|rs|, i requires 0 <= i < |rs| => Translate(rs[i], ds[i]))
  }

  lemma AlignedIsTranslation(rs: seq<Rect>, mode: AlignMode)
    requires |rs| > 0
    ensures forall i :: 0 <= i < |rs| ==> Aligned(rs, mode)[i] == Translate(rs[i], AlignDeltas(rs, mode)[i])
  {
  }

  /** The move of each box can be read back from where it ended up. */
  lemma DeltasFromLayout(rs: seq<Rect>, ds: seq<Delta>, out: seq<Rect>)
    requires |rs| == |ds| == |out|
    requires forall i :: 0 <= i < |rs| ==> out[i] == Translate(rs[i], ds[i])
    ensures forall i :: 0 <= i < |rs| ==> ds[i] == Delta(out[i].left - rs[i].left, out[i].top - rs[i].top)
  {
  }

  /** After alignment every box lies within the selection's original span on the aligned axis. */
  lemma AlignedStaysWithinSpan(rs: seq<Rect>, mode: AlignMode)
    requires |rs| > 0
    ensures var axis, out := AxisOf(mode), Aligned(rs, mode);
      forall i :: 0 <= i < |rs| ==>
        LowEdge(rs, axis) <= Leading(out[i], axis) && Trailing(out[i], axis) <= HighEdge(rs, axis)
  {
    var axis, out := AxisOf(mode), Aligned(rs, mode);
    var lo, hi := LowEdge(rs, axis), HighEdge(rs, axis);
    forall i | 0 <= i < |rs|
      ensures lo <= Leading(out[i], axis) && Trailing(out[i], axis) <= hi
    {
      assert Leadings(rs, axis)[i] == Leading(rs[i], axis);
      assert Trailings(rs, axis)[i] == Trailing(rs[i], axis);
      assert lo <= Leading(rs[i], axis) && Trailing(rs[i], axis) <= hi;
    }
  }

  /** A list whose every element is `v` has `v` as its minimum and its maximum. */
  lemma ConstantExtremes(xs: seq<real>, v: real)
    requires |xs| > 0 && forall i :: 0 <= i < |xs| ==> xs[i] == v
    ensures MinOf(xs) == v && MaxOf(xs) == v
  {
  }

  /** Boxes sharing one centre have extremes whose midpoint is that centre. */
  lemma SharedCentreExtremes(out: seq<Rect>, axis: Axis, c: real)
    requires |out| > 0
    requires forall i :: 0 <= i < |out| ==> CenterOn(out[i], axis) == c
    ensures (LowEdge(out, axis) + HighEdge(out, axis)) / 2.0 == c
  {
    var lo', hi' := LowEdge(out, axis), HighEdge(out, axis);
    var j :| 0 <= j < |out| && Leadings(out, axis)[j] == lo';
    var k :| 0 <= k < |out| && Trailings(out, axis)[k] == hi';
    assert lo' <= Leadings(out, axis)[k] == Leading(out[k], axis);
    assert Trailing(out[j], axis) == Trailings(out, axis)[j] <= hi';
    assert Extent(out[j], axis) == Extent(out[k], axis);
  }

  /** The extremes the aligned selection has: the anchor it was aligned to is where it already is. */
  lemma AlignedKeepsItsAnchor(rs: seq<Rect>, mode: AlignMode)
    requires |rs| > 0
    ensures var axis, out := AxisOf(mode), Aligned(rs, mode);
      match AnchorOf(mode)
      case Start => LowEdge(out, axis) == LowEdge(rs, axis)
      case End => HighEdge(out, axis) == HighEdge(rs, axis)
      case Mid => (LowEdge(out, axis) + HighEdge(out, axis)) / 2.0 == (LowEdge(rs, axis) + HighEdge(rs, axis)) / 2.0
  {
    var axis, out := AxisOf(mode), Aligned(rs, mode);
    match AnchorOf(mode)
    case Start => ConstantExtremes(Leadings(out, axis), LowEdge(rs, axis));
    case End => ConstantExtremes(Trailings(out, axis), HighEdge(rs, axis));
    case Mid => SharedCentreExtremes(out, axis, (LowEdge(rs, axis) + HighEdge(rs, axis)) / 2.0);
  }

  /** Aligning an aligned selection again moves nothing. */
  lemma AlignIsIdempotent(rs: seq<Rect>, mode: AlignMode)
    requires |rs| > 0
    ensures forall d :: d in AlignDeltas(Aligned(rs, mode), mode) ==> d == NoMove
    ensures Aligned(Aligned(rs, mode), mode) == Aligned(rs, mode)
  {
    var out := Aligned(rs, mode);
    AlignedNeedsNoMove(rs, mode);
    var ds := AlignDeltas(out, mode);
    var again := Aligned(out, mode);
    AlignedIsTranslation(out, mode);
    forall i | 0 <= i < |out| ensures again[i] == out[i] {
      assert again[i] == Translate(out[i], ds[i]) && ds[i] == NoMove;
    }
  }

  /** Every box of an aligned selection already sits at the anchor, so its move is zero. */
  lemma AlignedNeedsNoMove(rs: seq<Rect>, mode: AlignMode)
    requires |rs| > 0
    ensures forall i :: 0 <= i < |rs| ==> AlignDeltas(Aligned(rs, mode), mode)[i] == NoMove
  {
    var axis, out := AxisOf(mode), Aligned(rs, mode);
    AlignedKeepsItsAnchor(rs, mode);
    var lo, hi := LowEdge(out, axis), HighEdge(out, axis);
    var ds := AlignDeltas(out, mode);
    forall i | 0 <= i < |rs| ensures ds[i] == NoMove {
      assert ds[i] == AlignDelta(out[i], mode, lo, hi);
      AnchoredBoxNeedsNoMove(out[i], mode, lo, hi);
    }
  }

  /** A box already at the anchor the extremes give gets a zero move. */
  lemma AnchoredBoxNeedsNoMove(r: Rect, mode: AlignMode, lo: real, hi: real)
    requires AnchorOf(mode) == Start ==> Leading(r, AxisOf(mode)) == lo
    requires AnchorOf(mode) == End ==> Trailing(r, AxisOf(mode)) == hi
    requires AnchorOf(mode) == Mid ==> CenterOn(r, AxisOf(mode)) == (lo + hi) / 2.0
    ensures AlignDelta(r, mode, lo, hi) == NoMove
  {
  }

  /**
   * `align(mode)` on the selected objects. Fewer than two objects: refused,
   * nothing moves. Otherwise each object moves by exactly the amount its
   * bounding box moved in the aligned layout.
   */
  function AlignSelection(objs: seq<CanvasObject>, mode: AlignMode): (e: SelectionEdit)
    ensures e.requests == []
    ensures e.ok <==> |objs| >= 2
    ensures !e.ok ==> e.objects == objs
    ensures e.ok ==>
      var out := Aligned(BoundsOf(objs), mode);
      && |e.objects| == |objs|
      && forall i :: 0 <= i < |objs| ==>
           e.objects[i] == Moved(objs[i], Delta(out[i].left - objs[i].bounds.left, out[i].top - objs[i].bounds.top))
  {
    if |objs| < 2 then SelectionEdit(false, objs, [])
    else
      var ds := AlignDeltas(BoundsOf(objs), mode);
      AlignMovesMatchLayout(objs, mode);
      SelectionEdit(true, seq(|objs|, i requires 0 <= i < |objs| => Moved(objs[i], ds[i])), [])
  }

  /** Each object's align move is how far its bounding box moved in the aligned layout. */
  lemma AlignMovesMatchLayout(objs: seq<CanvasObject>, mode: AlignMode)
    requires |objs| > 0
    ensures var out, ds := Aligned(BoundsOf(objs), mode), AlignDeltas(BoundsOf(objs), mode);
      forall i :: 0 <= i < |objs| ==> ds[i] == Delta(out[i].left - objs[i].bounds.left, out[i].top - objs[i].bounds.top)
  {
    var rs := BoundsOf(objs);
    AlignedIsTranslation(rs, mode);
    DeltasFromLayout(rs, AlignDeltas(rs, mode), Aligned(rs, mode));
  }

  /** Align commands are enabled exactly when at least two objects are selected. */
  function IsEnabled(ctx: Context): (b: bool)
    ensures b <==> ctx.canvas.Some? && |GetActiveSelection(ctx.canvas.value).objects| >= 2
  {
    SelectionHasAtLeast(ctx, 2)
  }

  /**
   * Running an align command succeeds exactly when it is enabled. It aligns
   * the selected objects where the canvas holds them and changes nothing
   * else.
   */
  function Run(ctx: Context, mode: AlignMode): (out: (bool, Context))
    ensures out.0 <==> IsEnabled(ctx)
    ensures !out.0 ==> out.1 == ctx
    ensures out.1.store == ctx.store
    ensures ctx.canvas.Some? ==>
      var c := ctx.canvas.value;
      && out.1.canvas.Some? && out.1.canvas.value.requests == c.requests
      && EditedSelection(c, out.1.canvas.value, AlignSelection(GetActiveSelection(c).objects, mode).objects)
  {
    var out := RunOnSelection(ctx, objs => AlignSelection(objs, mode));
    if ctx.canvas.Some? && !out.0 then
      var c := ctx.canvas.value;
      assert c.requests + [] == c.requests;
      out
    else out
  }

  /**
   * Aligning edits the canvas's own objects, which every later reader of the
   * object list (fit-to-screen among them) sees: after an enabled run the
   * object at each selected position has its aligned box, and every other
   * object is untouched.
   */
  lemma RunMovesTheCanvasObjects(ctx: Context, mode: AlignMode)
    requires IsEnabled(ctx)
    ensures var c, d := ctx.canvas.value, Run(ctx, mode).1.canvas.value;
      var sel := GetActiveSelection(c);
      var out := Aligned(BoundsOf(sel.objects), mode);
      && (forall k :: 0 <= k < |sel.positions| ==> d.objects[sel.positions[k]].bounds == out[k])
      && (forall i :: 0 <= i < |c.objects| && i !in sel.positions ==> d.objects[i] == c.objects[i])
  {
    var c, d := ctx.canvas.value, Run(ctx, mode).1.canvas.value;
    var sel := GetActiveSelection(c);
    var e := AlignSelection(sel.objects, mode);
    var out := Aligned(BoundsOf(sel.objects), mode);
    assert GetActiveSelection(d).objects == e.objects;
    forall k | 0 <= k < |sel.positions|
      ensures d.objects[sel.positions[k]].bounds == out[k]
    {
      assert d.objects[sel.positions[k]] == GetActiveSelection(d).objects[k];
      assert out[k].width == sel.objects[k].bounds.width && out[k].height == sel.objects[k].bounds.height;
    }
  }
}
