/**
 * The helpers of editor/src/commands/utils.ts. The runtime context that the
 * source fetches from module singletons is passed explicitly: an optional
 * canvas and the store.
 */
module CommandUtils {
  import opened Wrappers
  import opened Scene
  import opened CanvasStore

  datatype Context = Context(canvas: Option<Canvas>, store: Store)

  /** The selected objects, and their positions in the canvas's object list. */
  datatype Selection = Selection(objects: seq<CanvasObject>, positions: seq<nat>)

  const ACTIVE_SELECTION: string := "activeSelection"

  /** The active object's `type`: an active selection's own, or that of the canvas object that is active. */
  function ActiveType(c: Canvas): (t: Option<string>)
    ensures c.active.None? <==> t.None?
    ensures c.active.Some? && c.active.value.ActiveSelection? ==> t == Some(ACTIVE_SELECTION)
    ensures c.active.Some? && c.active.value.ActiveOne? ==> t == Some(c.objects[c.active.value.index].kind)
  {
    match c.active
    case None => None
    case Some(ActiveOne(i)) => Some(c.objects[i].kind)
    case Some(ActiveSelection(_)) => Some(ACTIVE_SELECTION)
  }

  /**
   * `getActiveSelection`: nothing when nothing is active, the members of an
   * active selection, or the single active object; each read from the
   * canvas's object list at the position the active object names.
   */
  function GetActiveSelection(c: Canvas): (sel: Selection)
    ensures sel.positions == SelectedPositions(c.active)
    ensures |sel.objects| == |sel.positions|
    ensures forall k :: 0 <= k < |sel.objects| ==> sel.objects[k] == c.objects[sel.positions[k]]
    ensures c.active.None? ==> sel.objects == []
    ensures c.active.Some? && c.active.value.ActiveOne? ==> sel.objects == [c.objects[c.active.value.index]]
  {
    var ps := SelectedPositions(c.active);
    Selection(seq(|ps|, k requires 0 <= k < |ps| => c.objects[ps[k]]), ps)
  }

  predicate IsTextObject(o: CanvasObject) {
    o.kind == "textbox" || o.kind == "i-text" || o.kind == "text"
  }

  /** The command layer and the store agree on which objects are text. */
  lemma TextTestsAgree(o: CanvasObject)
    ensures IsTextObject(o) <==> CountsAsText(o)
  {
  }

  /** What a command callback returned: a boolean, or nothing at all. */
  datatype CallbackResult = Returned(b: bool) | ReturnedNothing

  /** A callback's result together with the canvas and store it leaves behind. */
  datatype Step = Step(result: CallbackResult, canvas: Canvas, store: Store)

  /**
   * Runs `callback` on the canvas when there is one. Without a canvas the
   * result is false and nothing changes; otherwise the result is false exactly
   * when the callback returned `false`, and a callback that returned nothing
   * counts as success.
   */
  function WithCanvas(ctx: Context, callback: (Canvas, Store) -> Step): (out: (bool, Context))
    ensures ctx.canvas.None? ==> out == (false, ctx)
    ensures ctx.canvas.Some? ==>
      var st := callback(ctx.canvas.value, ctx.store);
      && (out.0 <==> st.result != Returned(false))
      && out.1 == Context(Some(st.canvas), st.store)
  {
    match ctx.canvas
    case None => (false, ctx)
    case Some(c) =>
      var st := callback(c, ctx.store);
      (if st.result == Returned(false) then false else true, Context(Some(st.canvas), st.store))
  }

  /** What a selection command did: its verdict, the selected objects afterwards, and the calls it made into the scene library. */
  datatype SelectionEdit = SelectionEdit(ok: bool, objects: seq<CanvasObject>, requests: seq<HostRequest>)

  /**
   * The canvas after its selected objects were edited in place: the object
   * at the k-th selected position is the k-th edited object.
   */
  function WriteSelection(c: Canvas, objs: seq<CanvasObject>): (d: Canvas)
    requires |objs| == |SelectedPositions(c.active)|
    ensures EditedSelection(c, d, objs)
    ensures d.requests == c.requests
    ensures GetActiveSelection(c).objects == objs ==> d == c
  {
    var ps := SelectedPositions(c.active);
    var written := Overwrite(c.objects, ps, objs);
    assert GetActiveSelection(c).objects == objs ==> written == c.objects;
    c.(objects := written)
  }

  /**
   * `d` is `c` with the selected objects replaced by `objs`: the same
   * active object and viewport, the selection now reading `objs`, and
   * every unselected object where and as it was.
   */
  predicate EditedSelection(c: Canvas, d: Canvas, objs: seq<CanvasObject>) {
    && d.active == c.active
    && |d.objects| == |c.objects|
    && d.(objects := c.objects, requests := c.requests) == c
    && GetActiveSelection(d).objects == objs
    && forall i :: 0 <= i < |c.objects| && i !in SelectedPositions(c.active) ==> d.objects[i] == c.objects[i]
  }

  /**
   * Runs a selection command on the current selection inside `withCanvas`:
   * the edited objects replace the selected ones in the canvas's object list,
   * the edit's calls into the scene library are logged, and the result is the
   * edit's verdict. (Every edit keeps the selection's length; one that did
   * not would leave the objects alone.)
   */
  function RunOnSelection(ctx: Context, edit: seq<CanvasObject> -> SelectionEdit): (out: (bool, Context))
    ensures ctx.canvas.None? ==> out == (false, ctx)
    ensures ctx.canvas.Some? ==>
      var c := ctx.canvas.value;
      var sel := GetActiveSelection(c).objects;
      var e := edit(sel);
      && (out.0 <==> e.ok)
      && out.1.store == ctx.store
      && out.1.canvas.Some?
      && out.1.canvas.value.requests == c.requests + e.requests
      && (|e.objects| == |sel| ==> EditedSelection(c, out.1.canvas.value, e.objects))
      && (e.objects == sel && e.requests == [] ==> out.1 == ctx)
  {
    match ctx.canvas
    case None => (false, ctx)
    case Some(c) =>
      var sel := GetActiveSelection(c).objects;
      var e := edit(sel);
      var d := if |e.objects| == |sel| then WriteSelection(c, e.objects) else c;
      assert c.requests + [] == c.requests;
      (e.ok, Context(Some(d.(requests := c.requests + e.requests)), ctx.store))
  }

  /** `withCanvas(canvas => getActiveSelection(canvas).objects.length >= n)`. */
  function SelectionHasAtLeast(ctx: Context, n: nat): (b: bool)
    ensures b <==> ctx.canvas.Some? && |GetActiveSelection(ctx.canvas.value).objects| >= n
  {
    WithCanvas(ctx, (c: Canvas, s: Store) =>
      Step(Returned(|GetActiveSelection(c).objects| >= n), c, s)).0
  }
}
