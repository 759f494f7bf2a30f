/**
 * The grouping commands (editor/src/commands/grouping.ts): group an active
 * multi-selection, ungroup an active group, and lock or unlock every
 * selected object against moving, rotating and scaling. Grouping moves the
 * selected objects from the canvas's list into a new group; ungrouping moves
 * a group's children back and selects them. Both calls are also logged as
 * host requests.
 */
module Grouping {
  import opened Wrappers
  import opened Geometry
  import opened Scene
  import opened CanvasStore
  import opened CommandUtils

  const GROUP: string := "group"

  const AllLocked: LockFlags := LockFlags(true, true, true, true, true)
  const NoneLocked: LockFlags := LockFlags(false, false, false, false, false)

  /** Sets the five lock flags of every object to `locked` and changes nothing else. */
  function SetLocks(objs: seq<CanvasObject>, locked: bool): (r: seq<CanvasObject>)
    ensures |r| == |objs|
    ensures forall i :: 0 <= i < |objs| ==>
      && r[i].locks == (if locked then AllLocked else NoneLocked)
      && r[i].(locks := objs[i].locks) == objs[i]
  {
    seq(|objs|, i requires 0 <= i < |objs| => objs[i].(locks := if locked then AllLocked else NoneLocked))
  }

  /** The edit lock or unlock makes: false, and nothing changed, on an empty selection. */
  function LockSelection(objs: seq<CanvasObject>, locked: bool): (e: SelectionEdit)
    ensures e.requests == []
    ensures e.ok <==> |objs| > 0
    ensures e.objects == SetLocks(objs, locked)
  {
    SelectionEdit(|objs| > 0, SetLocks(objs, locked), [])
  }

  /** Locking (or unlocking) twice is the same as doing it once. */
  lemma SetLocksIsIdempotent(objs: seq<CanvasObject>, locked: bool)
    ensures SetLocks(SetLocks(objs, locked), locked) == SetLocks(objs, locked)
  {
  }

  /** The last of a lock and an unlock wins. */
  lemma LastLockWins(objs: seq<CanvasObject>, first: bool, second: bool)
    ensures SetLocks(SetLocks(objs, first), second) == SetLocks(objs, second)
  {
  }

  /** Unlocking undoes a lock of objects that were unlocked. */
  lemma UnlockUndoesLock(objs: seq<CanvasObject>)
    requires forall i :: 0 <= i < |objs| ==> objs[i].locks == NoneLocked
    ensures SetLocks(SetLocks(objs, true), false) == objs
  {
  }

  /**
   * Lock or unlock on the canvas: enabled and successful exactly when
   * something is selected; the selected objects' locks are set where the
   * canvas holds them, and nothing else changes.
   */
  function RunLock(ctx: Context, locked: bool): (out: (bool, Context))
    ensures out.0 <==> HasSelection(ctx)
    ensures out.1.store == ctx.store
    ensures ctx.canvas.None? ==> out.1 == ctx
    ensures ctx.canvas.Some? ==>
      var c := ctx.canvas.value;
      && out.1.canvas.Some? && out.1.canvas.value.requests == c.requests
      && EditedSelection(c, out.1.canvas.value, SetLocks(GetActiveSelection(c).objects, locked))
  {
    RunOnSelection(ctx, objs => LockSelection(objs, locked))
  }

  /** `hasSelection`: at least one object is selected. */
  function HasSelection(ctx: Context): (b: bool)
    ensures b <==> ctx.canvas.Some? && |GetActiveSelection(ctx.canvas.value).objects| > 0
  {
    SelectionHasAtLeast(ctx, 1)
  }

  /** `hasMultiple`: at least two objects are selected, which is when Group is enabled. */
  function HasMultiple(ctx: Context): (b: bool)
    ensures b <==> ctx.canvas.Some? && |GetActiveSelection(ctx.canvas.value).objects| >= 2
  {
    SelectionHasAtLeast(ctx, 2)
  }

  /**
   * The group the canvas library builds from a selection: a "group" object
   * holding the selected objects, whose box spans theirs.
   */
  function GroupOf(children: seq<CanvasObject>): (g: CanvasObject)
    ensures g.kind == GROUP && g.children == children && g.visible
    ensures forall k :: 0 <= k < |children| ==> Covers(g.bounds, children[k].bounds)
    ensures g.left == g.bounds.left && g.top == g.bounds.top
  {
    var b := if |children| == 0 then Rect(0.0, 0.0, 0.0, 0.0) else Hull(BoundsOf(children));
    CanvasObject(GROUP, b.left, b.top, b, true, NoneLocked, "", "", false, "", true, true, children)
  }

  /**
   * `toGroup()` then `setActiveObject(group)`: the selected objects leave
   * the canvas's list, and the group holding them is added last and becomes
   * the active object.
   */
  function Grouped(c: Canvas): (d: Canvas)
    requires c.active.Some? && c.active.value.ActiveSelection?
    ensures var sel := GetActiveSelection(c);
      && d.objects == Remaining(c.objects, sel.positions) + [GroupOf(sel.objects)]
      && d.active == Some(ActiveOne(|d.objects| - 1))
      && d.requests == c.requests + [ToGroup]
      && d.(objects := c.objects, active := c.active, requests := c.requests) == c
  {
    var sel := GetActiveSelection(c);
    var rest := Remaining(c.objects, sel.positions);
    var d := c.(objects := rest + [GroupOf(sel.objects)], active := Some(ActiveOne(|rest|)), requests := c.requests + [ToGroup]);
    assert WellFormed(d) by {
      assert SelectedPositions(d.active) == [|rest|];
    }
    d
  }

  /** Group: only an active multi-selection can be grouped, and it then becomes a group. */
  function Group(ctx: Context): (out: (bool, Context))
    ensures ctx.canvas.None? ==> out == (false, ctx)
    ensures ctx.canvas.Some? ==>
      var c := ctx.canvas.value;
      && (out.0 <==> c.active.Some? && c.active.value.ActiveSelection?)
      && (!out.0 ==> out.1 == ctx)
      && (out.0 ==> out.1.canvas == Some(Grouped(c)))
    ensures out.1.store == ctx.store
  {
    WithCanvas(ctx, (c: Canvas, s: Store) =>
      if c.active.Some? && c.active.value.ActiveSelection? then Step(Returned(true), Grouped(c), s)
      else Step(Returned(false), c, s))
  }

  /** Ungroup is enabled exactly when the active object is a group. */
  function UngroupEnabled(ctx: Context): (b: bool)
    ensures b <==> ctx.canvas.Some? && ActiveType(ctx.canvas.value) == Some(GROUP)
  {
    WithCanvas(ctx, (c: Canvas, s: Store) =>
      Step(Returned(ActiveType(c) == Some(GROUP)), c, s)).0
  }

  /**
   * `toActiveSelection()`: the group leaves the canvas's list, its children
   * are added after the remaining objects, and an active selection over them
   * becomes the active object.
   */
  function Ungrouped(c: Canvas): (d: Canvas)
    requires ActiveType(c) == Some(GROUP)
    ensures var i := c.active.value.index;
      var rest, kids := Remaining(c.objects, [i]), c.objects[i].children;
      && d.objects == rest + kids
      && GetActiveSelection(d).positions == Span(|rest|, |kids|)
      && GetActiveSelection(d).objects == kids
      && d.requests == c.requests + [ToActiveSelection]
      && d.(objects := c.objects, active := c.active, requests := c.requests) == c
  {
    var i := c.active.value.index;
    var rest, kids := Remaining(c.objects, [i]), c.objects[i].children;
    var members := Span(|rest|, |kids|);
    var d := c.(objects := rest + kids, active := Some(ActiveSelection(members)), requests := c.requests + [ToActiveSelection]);
    assert WellFormed(d) by {
      assert SelectedPositions(d.active) == members;
    }
    assert forall k :: 0 <= k < |kids| ==> d.objects[members[k]] == kids[k] by {
      forall k | 0 <= k < |kids|
        ensures d.objects[members[k]] == kids[k]
      {
        assert members[k] == |rest| + k;
      }
    }
    d
  }

  /** Ungroup: only an active group can be ungrouped; its children then become the active selection. */
  function Ungroup(ctx: Context): (out: (bool, Context))
    ensures out.0 <==> UngroupEnabled(ctx)
    ensures !out.0 ==> out.1 == ctx
    ensures out.0 ==> out.1.canvas == Some(Ungrouped(ctx.canvas.value))
    ensures out.1.store == ctx.store
  {
    WithCanvas(ctx, (c: Canvas, s: Store) =>
      if ActiveType(c) == Some(GROUP) then Step(Returned(true), Ungrouped(c), s)
      else Step(Returned(false), c, s))
  }

  /** Whenever Group is enabled it succeeds: two or more selected objects can only come from an active multi-selection. */
  lemma GroupEnabledSucceeds(ctx: Context)
    requires HasMultiple(ctx)
    ensures Group(ctx).0
  {
  }

  /** Group can succeed while disabled: an active multi-selection holding a single object. */
  lemma GroupSucceedsOnSingletonSelection(ctx: Context)
    requires ctx.canvas.Some? && ctx.canvas.value.active.Some?
    requires ctx.canvas.value.active.value.ActiveSelection? && |ctx.canvas.value.active.value.members| == 1
    ensures Group(ctx).0 && !HasMultiple(ctx)
  {
  }

  /** After a successful group, Ungroup is enabled and Group no longer is. */
  lemma GroupThenUngroupEnabled(ctx: Context)
    requires Group(ctx).0
    ensures UngroupEnabled(Group(ctx).1)
    ensures !HasMultiple(Group(ctx).1)
  {
  }

  /** On the canvas: ungrouping the group just made puts its objects back after the objects left out of it, and selects them again. */
  lemma UngroupedAfterGrouped(c: Canvas)
    requires c.active.Some? && c.active.value.ActiveSelection?
    ensures ActiveType(Grouped(c)) == Some(GROUP)
    ensures var e, sel := Ungrouped(Grouped(c)), GetActiveSelection(c);
      && GetActiveSelection(e).objects == sel.objects
      && e.objects == Remaining(c.objects, sel.positions) + sel.objects
  {
    var sel := GetActiveSelection(c);
    var rest := Remaining(c.objects, sel.positions);
    var g := GroupOf(sel.objects);
    var d := Grouped(c);
    assert d.objects == rest + [g] && d.active == Some(ActiveOne(|rest|));
    assert Remaining(d.objects, [|rest|]) == rest by {
      RemainingDropsLast(rest, g);
    }
    assert d.objects[|rest|].children == sel.objects;
  }

  /** On the canvas: grouping then ungrouping logs both library calls and keeps the viewport. */
  lemma UngroupedAfterGroupedLogs(c: Canvas)
    requires c.active.Some? && c.active.value.ActiveSelection?
    requires ActiveType(Grouped(c)) == Some(GROUP)
    ensures var e := Ungrouped(Grouped(c));
      && e.requests == c.requests + [ToGroup, ToActiveSelection]
      && e.(objects := c.objects, active := c.active, requests := c.requests) == c
  {
    var d := Grouped(c);
    assert d.requests == c.requests + [ToGroup];
    assert Ungrouped(d).requests == (c.requests + [ToGroup]) + [ToActiveSelection];
  }

  /**
   * Ungroup undoes Group: the same objects are selected again, in the same
   * order, after the objects that were not selected, and the viewport is
   * as it was.
   */
  lemma UngroupUndoesGroup(ctx: Context)
    requires Group(ctx).0
    ensures Ungroup(Group(ctx).1).0
    ensures var c, e := ctx.canvas.value, Ungroup(Group(ctx).1).1.canvas.value;
      var sel := GetActiveSelection(c);
      && GetActiveSelection(e).objects == sel.objects
      && e.objects == Remaining(c.objects, sel.positions) + sel.objects
      && e.requests == c.requests + [ToGroup, ToActiveSelection]
      && e.(objects := c.objects, active := c.active, requests := c.requests) == c
  {
    var c := ctx.canvas.value;
    var mid := Group(ctx).1;
    assert mid.canvas == Some(Grouped(c));
    UngroupedAfterGrouped(c);
    UngroupedAfterGroupedLogs(c);
    assert UngroupEnabled(mid);
    assert Ungroup(mid).1.canvas == Some(Ungrouped(Grouped(c)));
  }
}
