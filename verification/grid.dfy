/**
 * The grid commands (editor/src/commands/grid.ts): show or hide the grid,
 * turn snapping on or off, and show or hide the alignment guides. They touch
 * only the store's grid flags, never the canvas, and their callbacks return
 * nothing, which the registry counts as success.
 */
module Grid {
  import opened CanvasStore
  import opened CommandUtils

  datatype GridCommand = ToggleGridCmd | SnapCmd | GuidesCmd

  /** The flag a grid command flips and its active indicator shows. */
  function Flag(cmd: GridCommand, s: Store): bool {
    match cmd
    case ToggleGridCmd => s.grid.showGrid
    case SnapCmd => s.grid.snapToGrid
    case GuidesCmd => s.grid.showGuides
  }

  /**
   * Running a grid command flips its own flag, leaves the other grid flags,
   * the grid size and the rest of the store alone, leaves the canvas alone
   * and returns nothing.
   */
  function Run(ctx: Context, cmd: GridCommand): (out: (CallbackResult, Context))
    ensures out.0 == ReturnedNothing
    ensures out.1.canvas == ctx.canvas
    ensures Flag(cmd, out.1.store) == !Flag(cmd, ctx.store)
    ensures forall other :: other != cmd ==> Flag(other, out.1.store) == Flag(other, ctx.store)
    ensures out.1.store.grid.size == ctx.store.grid.size
    ensures out.1.store.(grid := ctx.store.grid) == ctx.store
  {
    var s := ctx.store;
    var t := match cmd
      case ToggleGridCmd => ToggleGrid(s)
      case SnapCmd => ToggleSnap(s)
      case GuidesCmd => ToggleGuides(s);
    (ReturnedNothing, ctx.(store := t))
  }

  /** Only snapping has an enable test: it is available while the grid is shown. */
  function IsEnabled(ctx: Context, cmd: GridCommand): (b: bool)
    ensures cmd != SnapCmd ==> b
    ensures cmd == SnapCmd ==> (b <==> ctx.store.grid.showGrid)
  {
    match cmd
    case SnapCmd => ctx.store.grid.showGrid
    case _ => true
  }

  /** Each command's active indicator is the flag it flips. */
  function IsActive(ctx: Context, cmd: GridCommand): (b: bool) {
    Flag(cmd, ctx.store)
  }

  /** Running a grid command flips its indicator and no other's. */
  lemma RunFlipsOnlyItsIndicator(ctx: Context, cmd: GridCommand, other: GridCommand)
    ensures IsActive(Run(ctx, cmd).1, other) <==> (if other == cmd then !IsActive(ctx, other) else IsActive(ctx, other))
  {
  }

  /** Running a grid command twice restores the context. */
  lemma RunTwiceRestores(ctx: Context, cmd: GridCommand)
    ensures Run(Run(ctx, cmd).1, cmd).1 == ctx
  {
    GridTogglesAreInvolutions(ctx.store);
  }

  /** Hiding the grid disables snapping, whatever the snap flag holds; showing it enables snapping. */
  lemma ToggleGridGatesSnap(ctx: Context)
    ensures IsEnabled(Run(ctx, ToggleGridCmd).1, SnapCmd) <==> !IsEnabled(ctx, SnapCmd)
    ensures IsActive(Run(ctx, ToggleGridCmd).1, SnapCmd) == IsActive(ctx, SnapCmd)
  {
  }
}
