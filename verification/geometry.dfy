/**
 * Plain geometric values shared by the viewport-transform and selection-geometry
 * engines: points, sizes, axis-aligned rectangles, translations, and the
 * min/max/sum folds taken over a selection.
 */
module Geometry {

  /** A point in screen (viewport) or content coordinates. */
  datatype Point = Point(x: real, y: real)

  /** A width/height pair, as used for the viewport. */
  datatype Size = Size(width: real, height: real)

  /** The affine view: screen = content * zoom + offset, on each axis. */
  datatype ViewportTransform = ViewportTransform(zoom: real, offsetX: real, offsetY: real)

  /** An axis-aligned bounding box in content coordinates. */
  datatype Rect = Rect(left: real, top: real, width: real, height: real) {
    function Right(): real { left + width }
    function Bottom(): real { top + height }
    function CenterX(): real { left + width / 2.0 }
    function CenterY(): real { top + height / 2.0 }
  }

  /** A translation applied to an object's position. */
  datatype Delta = Delta(dx: real, dy: real)

  const NoMove: Delta := Delta(0.0, 0.0)

  /** Moving an object moves its bounding box by the same amount and keeps its size. */
  function Translate(r: Rect, d: Delta): (t: Rect)
    ensures t.width == r.width && t.height == r.height
    ensures t.left - r.left == d.dx && t.top - r.top == d.dy
  {
    Rect(r.left + d.dx, r.top + d.dy, r.width, r.height)
  }

  /** The axis a distribution or a one-dimensional alignment works on. */
  datatype Axis = Horizontal | Vertical

  /** Leading edge: `left` on the horizontal axis, `top` on the vertical one. */
  function Leading(r: Rect, axis: Axis): real {
    if axis == Horizontal then r.left else r.top
  }

  /** The rectangle's extent along the axis: its width or its height. */
  function Extent(r: Rect, axis: Axis): real {
    if axis == Horizontal then r.width else r.height
  }

  /** The coordinate of the rectangle across the axis, which a move along the axis keeps. */
  function Across(r: Rect, axis: Axis): real {
    if axis == Horizontal then r.top else r.left
  }

  function Trailing(r: Rect, axis: Axis): real {
    Leading(r, axis) + Extent(r, axis)
  }

  function CenterOn(r: Rect, axis: Axis): real {
    Leading(r, axis) + Extent(r, axis) / 2.0
  }

  /** A move by `amount` along one axis only. */
  function AlongAxis(axis: Axis, amount: real): (d: Delta)
    ensures forall r: Rect :: Leading(Translate(r, d), axis) == Leading(r, axis) + amount
    ensures forall r: Rect :: Across(Translate(r, d), axis) == Across(r, axis)
  {
    if axis == Horizontal then Delta(amount, 0.0) else Delta(0.0, amount)
  }

  /** Math.min and Math.max on two finite numbers. */
  function Min(a: real, b: real): real { if a <= b then a else b }
  function Max(a: real, b: real): real { if a >= b then a else b }

  function Abs(a: real): real { if a < 0.0 then -a else a }

  /** Math.min(...xs) over a non-empty list: a lower bound that is one of the elements. */
  function MinOf(xs: seq<real>): (m: real)
    requires |xs| > 0
    ensures forall i :: 0 <= i < |xs| ==> m <= xs[i]
    ensures exists i :: 0 <= i < |xs| && xs[i] == m
  {
    if |xs| == 1 then xs[0]
    else
      var rest := MinOf(xs[1..]);
      assert forall i :: 1 <= i < |xs| ==> xs[i] == xs[1..][i - 1];
      Min(xs[0], rest)
  }

  /** Math.max(...xs) over a non-empty list: an upper bound that is one of the elements. */
  function MaxOf(xs: seq<real>): (m: real)
    requires |xs| > 0
    ensures forall i :: 0 <= i < |xs| ==> xs[i] <= m
    ensures exists i :: 0 <= i < |xs| && xs[i] == m
  {
    if |xs| == 1 then xs[0]
    else
      var rest := MaxOf(xs[1..]);
      assert forall i :: 1 <= i < |xs| ==> xs[i] == xs[1..][i - 1];
      Max(xs[0], rest)
  }

  /** A box covers another when it contains it on both axes. */
  predicate Covers(outer: Rect, inner: Rect) {
    && outer.left <= inner.left && inner.Right() <= outer.Right()
    && outer.top <= inner.top && inner.Bottom() <= outer.Bottom()
  }

  /**
   * The smallest box covering every box of a non-empty list: it covers each
   * of them, and each of its four edges is some box's edge.
   */
  function Hull(rs: seq<Rect>): (h: Rect)
    requires |rs| > 0
    ensures forall i :: 0 <= i < |rs| ==> Covers(h, rs[i])
    ensures exists i :: 0 <= i < |rs| && rs[i].left == h.left
    ensures exists i :: 0 <= i < |rs| && rs[i].top == h.top
    ensures exists i :: 0 <= i < |rs| && rs[i].Right() == h.Right()
    ensures exists i :: 0 <= i < |rs| && rs[i].Bottom() == h.Bottom()
  {
    var left, top := MinOf(Leadings(rs, Horizontal)), MinOf(Leadings(rs, Vertical));
    var right, bottom := MaxOf(Trailings(rs, Horizontal)), MaxOf(Trailings(rs, Vertical));
    Rect(left, top, right - left, bottom - top)
  }

  /** A left fold of `+` starting at 0, as `reduce((sum, x) => sum + x, 0)`. */
  function Sum(xs: seq<real>): real {
    if |xs| == 0 then 0.0 else Sum(xs[..|xs| - 1]) + xs[|xs| - 1]
  }

  /** The leading edges of a list of boxes along an axis (their lefts or their tops). */
  function Leadings(rs: seq<Rect>, axis: Axis): (xs: seq<real>)
    ensures |xs| == |rs| && forall i :: 0 <= i < |rs| ==> xs[i] == Leading(rs[i], axis)
  {
    seq(|rs|, i requires 0 <= i < |rs| => Leading(rs[i], axis))
  }

  /** The trailing edges of a list of boxes along an axis (their rights or their bottoms). */
  function Trailings(rs: seq<Rect>, axis: Axis): (xs: seq<real>)
    ensures |xs| == |rs| && forall i :: 0 <= i < |rs| ==> xs[i] == Trailing(rs[i], axis)
  {
    seq(|rs|, i requires 0 <= i < |rs| => Trailing(rs[i], axis))
  }

  /** The extents of a list of boxes along an axis (their widths or their heights). */
  function Extents(rs: seq<Rect>, axis: Axis): (xs: seq<real>)
    ensures |xs| == |rs| && forall i :: 0 <= i < |rs| ==> xs[i] == Extent(rs[i], axis)
  {
    seq(|rs|, i requires 0 <= i < |rs| => Extent(rs[i], axis))
  }
}
