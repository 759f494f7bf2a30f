/**
 * Matching the size of a selection to its first object
 * (editor/src/commands/resize.ts). The first selected object is the
 * reference; every other object that has the scaling method is asked to
 * scale to the reference's bounding-box width, height or both. The scaling
 * itself happens inside the canvas library, so the model records the calls,
 * in order, as host requests.
 */
module Resize {
  import opened Wrappers
  import opened Geometry
  import opened Scene
  import opened CommandUtils

  datatype ResizeMode = MatchWidth | MatchHeight | MatchBoth

  predicate WantsWidth(mode: ResizeMode) { mode == MatchWidth || mode == MatchBoth }
  predicate WantsHeight(mode: ResizeMode) { mode == MatchHeight || mode == MatchBoth }

  /** The selection position a scaling request is addressed to. */
  function Target(r: HostRequest): nat {
    match r
    case ScaleToWidth(t, _) => t
    case ScaleToHeight(t, _) => t
    case _ => 0
  }

  /** The calls made on the object at position i: the width call first, then the height call. */
  function CallsFor(o: CanvasObject, i: nat, mode: ResizeMode, width: real, height: real): seq<HostRequest> {
    (if WantsWidth(mode) && width > 0.0 && o.canScaleToWidth then [ScaleToWidth(i, width)] else [])
    + (if WantsHeight(mode) && height > 0.0 && o.canScaleToHeight then [ScaleToHeight(i, height)] else [])
  }

  /** The calls made while visiting positions k, k+1, ... of the selection. */
  function CallsFrom(objs: seq<CanvasObject>, k: nat, mode: ResizeMode, width: real, height: real): (rs: seq<HostRequest>)
    requires k <= |objs|
    decreases |objs| - k
  {
    if k == |objs| then []
    else CallsFor(objs[k], k, mode, width, height) + CallsFrom(objs, k + 1, mode, width, height)
  }

  /** Every call from position k on goes to a position at or after k, and is one of the two scaling calls. */
  lemma {:induction false} CallsFromTargets(objs: seq<CanvasObject>, k: nat, mode: ResizeMode, width: real, height: real)
    requires k <= |objs|
    ensures forall r :: r in CallsFrom(objs, k, mode, width, height) ==>
      (r.ScaleToWidth? || r.ScaleToHeight?) && k <= Target(r) < |objs|
    decreases |objs| - k
  {
    if k < |objs| {
      CallsFromTargets(objs, k + 1, mode, width, height);
    }
  }

  /**
   * Exactly which width calls are made: object i (from position k on) is
   * asked to scale to the reference width iff width matching is wanted, the
   * reference width is positive and the object can scale to a width.
   */
  lemma {:induction false} WidthCallsExactly(objs: seq<CanvasObject>, k: nat, mode: ResizeMode, width: real, height: real, i: nat, w: real)
    requires k <= |objs|
    ensures ScaleToWidth(i, w) in CallsFrom(objs, k, mode, width, height)
        <==> k <= i < |objs| && w == width && WantsWidth(mode) && width > 0.0 && objs[i].canScaleToWidth
    decreases |objs| - k
  {
    if k < |objs| {
      WidthCallsExactly(objs, k + 1, mode, width, height, i, w);
    }
  }

  /** Exactly which height calls are made, on the same terms as the width calls. */
  lemma {:induction false} HeightCallsExactly(objs: seq<CanvasObject>, k: nat, mode: ResizeMode, width: real, height: real, i: nat, h: real)
    requires k <= |objs|
    ensures ScaleToHeight(i, h) in CallsFrom(objs, k, mode, width, height)
        <==> k <= i < |objs| && h == height && WantsHeight(mode) && height > 0.0 && objs[i].canScaleToHeight
    decreases |objs| - k
  {
    if k < |objs| {
      HeightCallsExactly(objs, k + 1, mode, width, height, i, h);
    }
  }

  /**
   * Calls in selection order, and for one object the width call before the
   * height call.
   */
  predicate InCallOrder(rs: seq<HostRequest>) {
    forall a, b :: 0 <= a < b < |rs| ==>
      Target(rs[a]) <= Target(rs[b]) && (Target(rs[a]) == Target(rs[b]) ==> rs[a].ScaleToWidth? && rs[b].ScaleToHeight?)
  }

  /** The calls for one object followed by calls for later objects stay in order. */
  lemma ConcatInCallOrder(head: seq<HostRequest>, tail: seq<HostRequest>, k: nat)
    requires InCallOrder(head) && InCallOrder(tail)
    requires forall r :: r in head ==> Target(r) == k
    requires forall r :: r in tail ==> Target(r) > k
    ensures InCallOrder(head + tail)
  {
    var rs := head + tail;
    forall a, b | 0 <= a < b < |rs|
      ensures Target(rs[a]) <= Target(rs[b]) && (Target(rs[a]) == Target(rs[b]) ==> rs[a].ScaleToWidth? && rs[b].ScaleToHeight?)
    {
      if b < |head| {
        assert rs[a] == head[a] && rs[b] == head[b];
      } else if a < |head| {
        assert rs[a] == head[a] && rs[a] in head;
        assert rs[b] == tail[b - |head|] && rs[b] in tail;
      } else {
        assert rs[a] == tail[a - |head|] && rs[b] == tail[b - |head|];
      }
    }
  }

  /** The calls are made in that order. */
  lemma {:induction false} CallsInOrder(objs: seq<CanvasObject>, k: nat, mode: ResizeMode, width: real, height: real)
    requires k <= |objs|
    ensures InCallOrder(CallsFrom(objs, k, mode, width, height))
    decreases |objs| - k
  {
    if k < |objs| {
      var head := CallsFor(objs[k], k, mode, width, height);
      var tail := CallsFrom(objs, k + 1, mode, width, height);
      CallsInOrder(objs, k + 1, mode, width, height);
      CallsFromTargets(objs, k + 1, mode, width, height);
      assert |head| == 2 ==> head[0].ScaleToWidth? && head[1].ScaleToHeight?;
      ConcatInCallOrder(head, tail, k);
    }
  }

  /**
   * The edit a resize command makes: nothing, and a false result, with fewer
   * than two objects; otherwise the scaling calls for positions 1 onwards,
   * against the first object's bounding-box size. The command reports
   * success even when no object could be scaled.
   */
  function ResizeSelection(objs: seq<CanvasObject>, mode: ResizeMode): (e: SelectionEdit)
    ensures e.objects == objs
    ensures e.ok <==> |objs| >= 2
    ensures !e.ok ==> e.requests == []
    ensures e.ok ==> forall r :: r in e.requests ==> (r.ScaleToWidth? || r.ScaleToHeight?) && 1 <= Target(r) < |objs|
    ensures InCallOrder(e.requests)
  {
    if |objs| < 2 then SelectionEdit(false, objs, [])
    else
      var reference := objs[0].bounds;
      CallsFromTargets(objs, 1, mode, reference.width, reference.height);
      CallsInOrder(objs, 1, mode, reference.width, reference.height);
      SelectionEdit(true, objs, CallsFrom(objs, 1, mode, reference.width, reference.height))
  }

  /**
   * Which calls a resize makes, in both directions: object i is scaled to the
   * reference width (height) exactly when it is not the reference, the mode
   * asks for it, the reference's size on that side is positive and the
   * object has the method.
   */
  lemma ResizeCallsExactly(objs: seq<CanvasObject>, mode: ResizeMode, i: nat, x: real)
    requires |objs| >= 2
    ensures var e, ref := ResizeSelection(objs, mode), objs[0].bounds;
      && (ScaleToWidth(i, x) in e.requests
          <==> 1 <= i < |objs| && x == ref.width && WantsWidth(mode) && ref.width > 0.0 && objs[i].canScaleToWidth)
      && (ScaleToHeight(i, x) in e.requests
          <==> 1 <= i < |objs| && x == ref.height && WantsHeight(mode) && ref.height > 0.0 && objs[i].canScaleToHeight)
  {
    var ref := objs[0].bounds;
    WidthCallsExactly(objs, 1, mode, ref.width, ref.height, i, x);
    HeightCallsExactly(objs, 1, mode, ref.width, ref.height, i, x);
  }

  /** Resize commands are enabled exactly when at least two objects are selected. */
  function IsEnabled(ctx: Context): (b: bool)
    ensures b <==> ctx.canvas.Some? && |GetActiveSelection(ctx.canvas.value).objects| >= 2
  {
    SelectionHasAtLeast(ctx, 2)
  }

  /**
   * Running a resize command succeeds exactly when it is enabled; it leaves
   * the store and the objects' recorded state alone and only adds scaling
   * calls to the canvas's log.
   */
  function Run(ctx: Context, mode: ResizeMode): (out: (bool, Context))
    ensures out.0 <==> IsEnabled(ctx)
    ensures !out.0 ==> out.1 == ctx
    ensures out.1.store == ctx.store
    ensures ctx.canvas.Some? ==>
      var c := ctx.canvas.value;
      && out.1.canvas == Some(c.(requests := c.requests + ResizeSelection(GetActiveSelection(c).objects, mode).requests))
  {
    var out := RunOnSelection(ctx, objs => ResizeSelection(objs, mode));
    if ctx.canvas.Some? && !out.0 then
      var c := ctx.canvas.value;
      assert c.requests + [] == c.requests;
      out
    else out
  }
}
