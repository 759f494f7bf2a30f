/**
 * The scene-graph objects the commands read and write, reduced to plain
 * records: a fabric object is its type name, its position, its bounding box
 * (as `getBoundingRect(true, true)` reports it), its visibility, its five lock
 * flags, its text styling, which scale-to-size methods it has, and, for a
 * group, its children. The canvas is the object list, the active object, the
 * viewport state, and a log of the calls made into the scene library whose
 * effect on geometry is not modelled.
 *
 * The active object names canvas objects by their position in the object
 * list: an active selection holds the very objects `getObjects()` returns, so
 * a command that edits the selection edits the canvas's objects.
 */
module Scene {
  import opened Wrappers
  import opened Geometry
  import Seqs

  datatype LockFlags = LockFlags(movementX: bool, movementY: bool, rotation: bool, scalingX: bool, scalingY: bool)

  datatype CanvasObject = CanvasObject(
    kind: string,
    left: real,
    top: real,
    bounds: Rect,
    visible: bool,
    locks: LockFlags,
    fontWeight: string,
    fontStyle: string,
    underline: bool,
    textAlign: string,
    canScaleToWidth: bool,
    canScaleToHeight: bool,
    children: seq<CanvasObject>)

  /** `obj.set({left: left + dx, top: top + dy})`: the object and its bounding box move together. */
  function Moved(o: CanvasObject, d: Delta): (m: CanvasObject)
    ensures m.bounds == Translate(o.bounds, d)
    ensures m.left - o.left == d.dx && m.top - o.top == d.dy
    ensures m.(left := o.left, top := o.top, bounds := o.bounds) == o
  {
    o.(left := o.left + d.dx, top := o.top + d.dy, bounds := Translate(o.bounds, d))
  }

  /** The bounding boxes of a list of objects, snapshotted before anything moves. */
  function BoundsOf(objs: seq<CanvasObject>): (rs: seq<Rect>)
    ensures |rs| == |objs| && forall i :: 0 <= i < |objs| ==> rs[i] == objs[i].bounds
  {
    seq(|objs|, i requires 0 <= i < |objs| => objs[i].bounds)
  }

  /**
   * A call into the scene library that the model records but does not
   * interpret; `target` is the object's position in the selection.
   */
  datatype HostRequest =
    | ScaleToWidth(target: nat, width: real)
    | ScaleToHeight(target: nat, height: real)
    | ToGroup
    | ToActiveSelection

  /**
   * The active object: one of the canvas's own objects, or an active
   * selection over several of them, each named by its position in the
   * canvas's object list.
   */
  datatype ActiveObject =
    | ActiveOne(index: nat)
    | ActiveSelection(members: seq<nat>)

  /** The positions the active object covers, in selection order. */
  function SelectedPositions(active: Option<ActiveObject>): (ps: seq<nat>)
    ensures active.None? ==> ps == []
    ensures active.Some? && active.value.ActiveOne? ==> ps == [active.value.index]
    ensures active.Some? && active.value.ActiveSelection? ==> ps == active.value.members
  {
    match active
    case None => []
    case Some(ActiveOne(i)) => [i]
    case Some(ActiveSelection(ms)) => ms
  }

  datatype CanvasState = CanvasState(
    objects: seq<CanvasObject>,
    active: Option<ActiveObject>,
    zoom: real,
    viewportTransform: Option<ViewportTransform>,
    width: real,
    height: real,
    requests: seq<HostRequest>)

  /** Every position the active object names holds an object, and none is named twice. */
  predicate WellFormed(c: CanvasState) {
    var ps := SelectedPositions(c.active);
    && (forall k :: 0 <= k < |ps| ==> ps[k] < |c.objects|)
    && Seqs.NoDups(ps)
    && (c.active.Some? && c.active.value.ActiveOne? ==> c.active.value.index < |c.objects|)
  }

  /** The n consecutive positions from `start`: where objects appended to a list of length `start` land. */
  function Span(start: nat, n: nat): (ps: seq<nat>)
    ensures |ps| == n
    ensures forall k :: 0 <= k < n ==> ps[k] == start + k
    ensures Seqs.NoDups(ps)
  {
    seq(n, k requires 0 <= k < n => start + k)
  }

  /** A canvas fabric can be in: its active object refers to objects it holds. */
  type Canvas = c: CanvasState | WellFormed(c)
    witness CanvasState([], None, 1.0, None, 0.0, 0.0, [])

  /**
   * The list with the object at the k-th of the given positions replaced by
   * the k-th of `objs`, and every other object kept.
   */
  function Overwrite(objects: seq<CanvasObject>, ps: seq<nat>, objs: seq<CanvasObject>): (r: seq<CanvasObject>)
    requires |objs| == |ps| && Seqs.NoDups(ps)
    requires forall k :: 0 <= k < |ps| ==> ps[k] < |objects|
    ensures |r| == |objects|
    ensures forall k :: 0 <= k < |ps| ==> r[ps[k]] == objs[k]
    ensures forall i :: 0 <= i < |objects| && i !in ps ==> r[i] == objects[i]
  {
    var r := seq(|objects|, i requires 0 <= i < |objects| =>
      if i in ps then objs[Seqs.IndexOf(ps, i)] else objects[i]);
    assert forall k :: 0 <= k < |ps| ==> Seqs.IndexOf(ps, ps[k]) == k;
    r
  }

  /**
   * The objects left when the given positions are taken out of the list, in
   * their order (what `canvas.remove` leaves).
   */
  function Remaining(objs: seq<CanvasObject>, ps: seq<nat>): (r: seq<CanvasObject>)
    ensures |r| <= |objs|
    ensures (forall i :: 0 <= i < |objs| ==> i !in ps) ==> r == objs
    ensures forall o :: o in r ==> o in objs
    decreases |objs|
  {
    if |objs| == 0 then []
    else
      var last := |objs| - 1;
      var rest := Remaining(objs[..last], ps);
      assert objs == objs[..last] + [objs[last]];
      if last in ps then rest else rest + [objs[last]]
  }

  /** The positions below n that are not listed, in increasing order: the places whose objects a removal keeps. */
  function Kept(n: nat, ps: seq<nat>): (ks: seq<nat>)
    ensures forall k :: 0 <= k < |ks| ==> ks[k] < n && ks[k] !in ps
    ensures forall i :: 0 <= i < n && i !in ps ==> i in ks
    ensures forall k, l :: 0 <= k < l < |ks| ==> ks[k] < ks[l]
  {
    if n == 0 then []
    else
      var rest := Kept(n - 1, ps);
      if n - 1 in ps then rest else rest + [n - 1]
  }

  /**
   * Removal keeps exactly the unlisted objects, in their order: the k-th
   * remaining object is the object at the k-th unlisted position.
   */
  lemma {:induction false} RemainingKeepsTheRest(objs: seq<CanvasObject>, ps: seq<nat>)
    ensures var r, ks := Remaining(objs, ps), Kept(|objs|, ps);
      |r| == |ks| && forall k :: 0 <= k < |ks| ==> r[k] == objs[ks[k]]
  {
    if |objs| > 0 {
      var last := |objs| - 1;
      var init := objs[..last];
      RemainingKeepsTheRest(init, ps);
      var rest, ks0 := Remaining(init, ps), Kept(last, ps);
      assert forall k :: 0 <= k < |ks0| ==> rest[k] == objs[ks0[k]] by {
        forall k | 0 <= k < |ks0|
          ensures rest[k] == objs[ks0[k]]
        {
          assert init[ks0[k]] == objs[ks0[k]];
        }
      }
      if last !in ps {
        assert Remaining(objs, ps) == rest + [objs[last]] && Kept(|objs|, ps) == ks0 + [last];
      } else {
        assert Remaining(objs, ps) == rest && Kept(|objs|, ps) == ks0;
      }
    }
  }

  /** Every object at an unlisted position survives the removal. */
  lemma {:induction false} RemainingKeepsUnlisted(objs: seq<CanvasObject>, ps: seq<nat>)
    ensures forall i :: 0 <= i < |objs| && i !in ps ==> objs[i] in Remaining(objs, ps)
  {
    var r, ks := Remaining(objs, ps), Kept(|objs|, ps);
    RemainingKeepsTheRest(objs, ps);
    forall i | 0 <= i < |objs| && i !in ps
      ensures objs[i] in r
    {
      var k :| 0 <= k < |ks| && ks[k] == i;
      assert r[k] == objs[i];
    }
  }

  /** Taking out the position of an object just added last leaves the list it was added to. */
  lemma RemainingDropsLast(objs: seq<CanvasObject>, o: CanvasObject)
    ensures Remaining(objs + [o], [|objs|]) == objs
  {
    var full, ps := objs + [o], [|objs|];
    assert full[..|objs|] == objs;
    assert Remaining(full, ps) == Remaining(objs, ps);
    assert forall i :: 0 <= i < |objs| ==> i !in ps;
  }
}
