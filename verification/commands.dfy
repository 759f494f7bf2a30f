/**
 * The command registry (editor/src/commands/index.ts): the table of all 31
 * commands in sidebar order, lookup by identifier, listing by section, the
 * `executeCommand` gate (enable test, run, record the last command of the
 * section) and the one-time binding of every command's hotkey.
 */
module Commands {
  import opened Wrappers
  import opened Seqs
  import opened CommandTypes
  import opened CanvasStore
  import opened CommandUtils
  import opened Hotkeys
  import TextCmd = TextCommands
  import AlignCmd = Align
  import DistributeCmd = Distribute
  import ResizeCmd = Resize
  import GroupingCmd = Grouping
  import GridCmd = Grid
  import ZoomCmd = ZoomCommands
  import Geometry

  /** The command identifiers in the order the command lists are concatenated. */
  const COMMAND_ORDER: seq<CommandId> := [
    TextBold, TextItalic, TextUnderline, TextAlignLeft, TextAlignCenter, TextAlignRight,
    AlignLeft, AlignCenter, AlignRight, AlignTop, AlignMiddle, AlignBottom,
    DistributeHorizontal, DistributeVertical, DistributeSpaceHorizontal, DistributeSpaceVertical,
    ResizeMatchWidth, ResizeMatchHeight, ResizeMatchBoth,
    GroupingGroup, GroupingUngroup, GroupingLock, GroupingUnlock,
    GridToggle, GridSnap, GridGuides,
    ZoomIn, ZoomOut, ZoomReset, ZoomActual, ZoomFit]

  /** The section each command belongs to. */
  function SectionOf(id: CommandId): SectionId {
    match id
    case TextBold | TextItalic | TextUnderline | TextAlignLeft | TextAlignCenter | TextAlignRight => Text
    case AlignLeft | AlignCenter | AlignRight | AlignTop | AlignMiddle | AlignBottom => Align
    case DistributeHorizontal | DistributeVertical | DistributeSpaceHorizontal | DistributeSpaceVertical => Distribute
    case ResizeMatchWidth | ResizeMatchHeight | ResizeMatchBoth => Resize
    case GroupingGroup | GroupingUngroup | GroupingLock | GroupingUnlock => Grouping
    case GridToggle | GridSnap | GridGuides => Grid
    case ZoomIn | ZoomOut | ZoomReset | ZoomActual | ZoomFit => Zoom
  }

  /** The caption each command shows in the sidebar (`label` in the source). */
  function Caption(id: CommandId): string {
    match id
    case TextBold => "Bold"
    case TextItalic => "Italic"
    case TextUnderline => "Underline"
    case TextAlignLeft => "Align Left"
    case TextAlignCenter => "Align Center"
    case TextAlignRight => "Align Right"
    case AlignLeft => "Align Left"
    case AlignCenter => "Align Center"
    case AlignRight => "Align Right"
    case AlignTop => "Align Top"
    case AlignMiddle => "Align Middle"
    case AlignBottom => "Align Bottom"
    case DistributeHorizontal => "Distribute Centers (H)"
    case DistributeVertical => "Distribute Centers (V)"
    case DistributeSpaceHorizontal => "Equal Gaps (H)"
    case DistributeSpaceVertical => "Equal Gaps (V)"
    case ResizeMatchWidth => "Match Width"
    case ResizeMatchHeight => "Match Height"
    case ResizeMatchBoth => "Match Size"
    case GroupingGroup => "Group"
    case GroupingUngroup => "Ungroup"
    case GroupingLock => "Lock"
    case GroupingUnlock => "Unlock"
    case GridToggle => "Toggle Grid"
    case GridSnap => "Snap to Grid"
    case GridGuides => "Show Guides"
    case ZoomIn => "Zoom In"
    case ZoomOut => "Zoom Out"
    case ZoomReset => "Reset View"
    case ZoomActual => "Actual Size"
    case ZoomFit => "Fit to Screen"
  }

  /** The hotkey each command is bound to, as written in its definition. */
  function HotkeyOf(id: CommandId): string {
    match id
    case TextBold => "ctrl+b"
    case TextItalic => "ctrl+i"
    case TextUnderline => "ctrl+u"
    case TextAlignLeft => "ctrl+shift+l"
    case TextAlignCenter => "ctrl+shift+c"
    case TextAlignRight => "ctrl+shift+r"
    case AlignLeft => "alt+left"
    case AlignCenter => "alt+c"
    case AlignRight => "alt+right"
    case AlignTop => "alt+up"
    case AlignMiddle => "alt+m"
    case AlignBottom => "alt+down"
    case DistributeHorizontal => "alt+shift+h"
    case DistributeVertical => "alt+shift+v"
    case DistributeSpaceHorizontal => "alt+h"
    case DistributeSpaceVertical => "alt+v"
    case ResizeMatchWidth => "ctrl+shift+w"
    case ResizeMatchHeight => "ctrl+shift+h"
    case ResizeMatchBoth => "ctrl+shift+b"
    case GroupingGroup => "ctrl+g"
    case GroupingUngroup => "ctrl+shift+g"
    case GroupingLock => "ctrl+alt+l"
    case GroupingUnlock => "ctrl+alt+shift+l"
    case GridToggle => "ctrl+`"
    case GridSnap => "ctrl+alt+`"
    case GridGuides => "ctrl+;"
    case ZoomIn => "ctrl+="
    case ZoomOut => "ctrl+-"
    case ZoomReset => "ctrl+0"
    case ZoomActual => "ctrl+1"
    case ZoomFit => "ctrl+shift+f"
  }

  /** The static definition of each command: its section, caption and hotkey. */
  function Definition(id: CommandId): (d: CommandDefinition)
    ensures d.id == id && d.section == SectionOf(id)
    ensures d.hotkey == Some(HotkeyOf(id)) && d.hotkey.value != ""
  {
    CommandDefinition(id, SectionOf(id), Caption(id), Some(HotkeyOf(id)))
  }

  /** `ALL_COMMANDS`: every definition, in table order. */
  function AllCommands(): (cmds: seq<CommandDefinition>)
    ensures |cmds| == |COMMAND_ORDER|
    ensures forall i :: 0 <= i < |cmds| ==> cmds[i] == Definition(COMMAND_ORDER[i])
  {
    seq(|COMMAND_ORDER|, i requires 0 <= i < |COMMAND_ORDER| => Definition(COMMAND_ORDER[i]))
  }

  /** Every command is registered once: no definition appears twice in the list. */
  lemma AllCommandsOnce()
    ensures NoDups(AllCommands())
  {
    var cmds := AllCommands();
    forall i, j | 0 <= i < j < |cmds|
      ensures cmds[i] != cmds[j]
    {
      PositionIsIndex(i);
      PositionIsIndex(j);
    }
  }

  /** Where each identifier sits in the table. */
  function Position(id: CommandId): (k: nat)
    ensures k < |COMMAND_ORDER| && COMMAND_ORDER[k] == id
  {
    match id
    case TextBold => 0
    case TextItalic => 1
    case TextUnderline => 2
    case TextAlignLeft => 3
    case TextAlignCenter => 4
    case TextAlignRight => 5
    case AlignLeft => 6
    case AlignCenter => 7
    case AlignRight => 8
    case AlignTop => 9
    case AlignMiddle => 10
    case AlignBottom => 11
    case DistributeHorizontal => 12
    case DistributeVertical => 13
    case DistributeSpaceHorizontal => 14
    case DistributeSpaceVertical => 15
    case ResizeMatchWidth => 16
    case ResizeMatchHeight => 17
    case ResizeMatchBoth => 18
    case GroupingGroup => 19
    case GroupingUngroup => 20
    case GroupingLock => 21
    case GroupingUnlock => 22
    case GridToggle => 23
    case GridSnap => 24
    case GridGuides => 25
    case ZoomIn => 26
    case ZoomOut => 27
    case ZoomReset => 28
    case ZoomActual => 29
    case ZoomFit => 30
  }

  /** Each identifier's position is where the table holds it, so the table names every identifier once. */
  lemma PositionIsIndex(i: nat)
    requires i < |COMMAND_ORDER|
    ensures Position(COMMAND_ORDER[i]) == i
  {
    if i < 8 {
      PositionIsIndexUpTo8(i);
    } else if i < 16 {
      PositionIsIndexUpTo16(i);
    } else if i < 24 {
      PositionIsIndexUpTo24(i);
    } else {
      PositionIsIndexUpTo31(i);
    }
  }

  lemma PositionIsIndexUpTo8(i: nat)
    requires i < 8
    ensures Position(COMMAND_ORDER[i]) == i
  {
    assert COMMAND_ORDER[i] in {TextBold, TextItalic, TextUnderline, TextAlignLeft, TextAlignCenter, TextAlignRight, AlignLeft, AlignCenter};
  }

  lemma PositionIsIndexUpTo16(i: nat)
    requires 8 <= i < 16
    ensures Position(COMMAND_ORDER[i]) == i
  {
    assert COMMAND_ORDER[i] in {AlignRight, AlignTop, AlignMiddle, AlignBottom, DistributeHorizontal, DistributeVertical, DistributeSpaceHorizontal, DistributeSpaceVertical};
  }

  lemma PositionIsIndexUpTo24(i: nat)
    requires 16 <= i < 24
    ensures Position(COMMAND_ORDER[i]) == i
  {
    assert COMMAND_ORDER[i] in {ResizeMatchWidth, ResizeMatchHeight, ResizeMatchBoth, GroupingGroup, GroupingUngroup, GroupingLock, GroupingUnlock, GridToggle};
  }

  lemma PositionIsIndexUpTo31(i: nat)
    requires 24 <= i < 31
    ensures Position(COMMAND_ORDER[i]) == i
  {
    assert COMMAND_ORDER[i] in {GridSnap, GridGuides, ZoomIn, ZoomOut, ZoomReset, ZoomActual, ZoomFit};
  }



  /** The first definition with the given identifier, if any. */
  function Find(cmds: seq<CommandDefinition>, id: CommandId): (r: Option<CommandDefinition>)
    ensures r.Some? ==> r.value in cmds && r.value.id == id
    ensures r.None? ==> forall c :: c in cmds ==> c.id != id
  {
    if |cmds| == 0 then None
    else if cmds[0].id == id then Some(cmds[0])
    else
      assert forall c :: c in cmds[1..] ==> c in cmds;
      assert forall c :: c in cmds ==> c == cmds[0] || c in cmds[1..];
      Find(cmds[1..], id)
  }

  /** `getCommand`: the definition for an identifier, or the "Unknown command" error. */
  function GetCommand(id: CommandId): (r: Result<CommandDefinition, string>)
    ensures r.Success? ==> r.value.id == id && r.value in AllCommands()
  {
    match Find(AllCommands(), id)
    case Some(c) => Success(c)
    case None => Failure("Unknown command: " + CommandName(id))
  }

  /** Every identifier is in the table, so the lookup never fails and returns the identifier's definition. */
  lemma GetCommandNeverFails(id: CommandId)
    ensures GetCommand(id) == Success(Definition(id))
  {
    var k := Position(id);
    assert AllCommands()[k] == Definition(id);
    assert Definition(id) in AllCommands();
    var r := Find(AllCommands(), id);
    if r.Some? {
      var j :| 0 <= j < |AllCommands()| && AllCommands()[j] == r.value;
    }
  }

  /** `listCommandsBySection`: the commands of one section, in table order. */
  function ListCommandsBySection(section: SectionId): (cmds: seq<CommandDefinition>)
    ensures forall c :: c in cmds ==> c.section == section && c in AllCommands()
    ensures NoDups(cmds) && FirstOccurrenceOrder(cmds, AllCommands())
  {
    AllCommandsOnce();
    FilterKeepsOrder(AllCommands(), (c: CommandDefinition) => c.section == section);
    Filter(AllCommands(), (c: CommandDefinition) => c.section == section)
  }

  /** Each command is listed under its own section, and only there. */
  lemma ListedUnderItsSection(id: CommandId, section: SectionId)
    ensures Definition(id) in ListCommandsBySection(section) <==> SectionOf(id) == section
  {
    var all := AllCommands();
    assert Definition(id) in all by {
      assert all[Position(id)] == Definition(id);
    }
    assert ListCommandsBySection(section) == Filter(all, (c: CommandDefinition) => c.section == section);
  }

  /** Whether the command has an `isEnabled` test at all (grid toggle, guides and the zoom commands do not). */
  predicate HasEnableTest(id: CommandId) {
    !(id.GridToggle? || id.GridGuides? || id.ZoomIn? || id.ZoomOut? || id.ZoomReset? || id.ZoomActual? || id.ZoomFit?)
  }

  /** The command's own `isEnabled` test. */
  function EnableTest(id: CommandId, ctx: Context): bool
    requires HasEnableTest(id)
  {
    match id
    case TextBold | TextItalic | TextUnderline | TextAlignLeft | TextAlignCenter | TextAlignRight =>
      TextCmd.IsEnabled(ctx)
    case AlignLeft | AlignCenter | AlignRight | AlignTop | AlignMiddle | AlignBottom =>
      AlignCmd.IsEnabled(ctx)
    case DistributeHorizontal | DistributeVertical | DistributeSpaceHorizontal | DistributeSpaceVertical =>
      DistributeCmd.IsEnabled(ctx)
    case ResizeMatchWidth | ResizeMatchHeight | ResizeMatchBoth => ResizeCmd.IsEnabled(ctx)
    case GroupingGroup => GroupingCmd.HasMultiple(ctx)
    case GroupingUngroup => GroupingCmd.UngroupEnabled(ctx)
    case GroupingLock | GroupingUnlock => GroupingCmd.HasSelection(ctx)
    case GridSnap => GridCmd.IsEnabled(ctx, GridCmd.SnapCmd)
  }

  /** A command passes the gate when it has no enable test or its test holds. */
  predicate IsEnabled(id: CommandId, ctx: Context) {
    !HasEnableTest(id) || EnableTest(id, ctx)
  }

  function Returning(out: (bool, Context)): (CallbackResult, Context) {
    (Returned(out.0), out.1)
  }

  /** The text command behind a text-section identifier. */
  function TextKind(id: CommandId): TextCmd.TextCommand
    requires SectionOf(id) == Text
  {
    match id
    case TextBold => TextCmd.Bold
    case TextItalic => TextCmd.Italic
    case TextUnderline => TextCmd.Underline
    case TextAlignLeft => TextCmd.AlignLeft
    case TextAlignCenter => TextCmd.AlignCenter
    case TextAlignRight => TextCmd.AlignRight
  }

  /** The alignment behind an align-section identifier. */
  function AlignKind(id: CommandId): AlignCmd.AlignMode
    requires SectionOf(id) == Align
  {
    match id
    case AlignLeft => AlignCmd.Left
    case AlignCenter => AlignCmd.Center
    case AlignRight => AlignCmd.Right
    case AlignTop => AlignCmd.Top
    case AlignMiddle => AlignCmd.Middle
    case AlignBottom => AlignCmd.Bottom
  }

  /** The axis and strategy behind a distribute-section identifier. */
  function DistributeKind(id: CommandId): (Geometry.Axis, DistributeCmd.Strategy)
    requires SectionOf(id) == Distribute
  {
    match id
    case DistributeHorizontal => (Geometry.Horizontal, DistributeCmd.Centers)
    case DistributeVertical => (Geometry.Vertical, DistributeCmd.Centers)
    case DistributeSpaceHorizontal => (Geometry.Horizontal, DistributeCmd.Spacing)
    case DistributeSpaceVertical => (Geometry.Vertical, DistributeCmd.Spacing)
  }

  /** The match mode behind a resize-section identifier. */
  function ResizeKind(id: CommandId): ResizeCmd.ResizeMode
    requires SectionOf(id) == Resize
  {
    match id
    case ResizeMatchWidth => ResizeCmd.MatchWidth
    case ResizeMatchHeight => ResizeCmd.MatchHeight
    case ResizeMatchBoth => ResizeCmd.MatchBoth
  }

  /** The grid command behind a grid-section identifier. */
  function GridKind(id: CommandId): GridCmd.GridCommand
    requires SectionOf(id) == Grid
  {
    match id
    case GridToggle => GridCmd.ToggleGridCmd
    case GridSnap => GridCmd.SnapCmd
    case GridGuides => GridCmd.GuidesCmd
  }

  /** The text section's `run` callbacks. */
  function RunText(id: CommandId, ctx: Context): (out: (CallbackResult, Context))
    requires SectionOf(id) == Text
    ensures out.0 == Returned(TextCmd.IsEnabled(ctx))
  {
    Returning(TextCmd.Run(ctx, TextKind(id)))
  }

  /** The align section's `run` callbacks. */
  function RunAlign(id: CommandId, ctx: Context): (out: (CallbackResult, Context))
    requires SectionOf(id) == Align
    ensures out.0 == Returned(AlignCmd.IsEnabled(ctx))
  {
    Returning(AlignCmd.Run(ctx, AlignKind(id)))
  }

  /** The distribute section's `run` callbacks. */
  function RunDistribute(id: CommandId, ctx: Context): (out: (CallbackResult, Context))
    requires SectionOf(id) == Distribute
    ensures out.0 == Returned(DistributeCmd.IsEnabled(ctx))
  {
    Returning(DistributeCmd.Run(ctx, DistributeKind(id).0, DistributeKind(id).1))
  }

  /** The resize section's `run` callbacks. */
  function RunResize(id: CommandId, ctx: Context): (out: (CallbackResult, Context))
    requires SectionOf(id) == Resize
    ensures out.0 == Returned(ResizeCmd.IsEnabled(ctx))
  {
    Returning(ResizeCmd.Run(ctx, ResizeKind(id)))
  }

  /** The grouping section's `run` callbacks. */
  function RunGrouping(id: CommandId, ctx: Context): (out: (CallbackResult, Context))
    requires SectionOf(id) == Grouping
    ensures id == GroupingGroup ==> out.0 == Returned(GroupingCmd.Group(ctx).0)
    ensures id != GroupingGroup ==> out.0 == Returned(EnableTest(id, ctx))
  {
    match id
    case GroupingGroup => Returning(GroupingCmd.Group(ctx))
    case GroupingUngroup => Returning(GroupingCmd.Ungroup(ctx))
    case GroupingLock => Returning(GroupingCmd.RunLock(ctx, true))
    case GroupingUnlock => Returning(GroupingCmd.RunLock(ctx, false))
  }

  /** The grid section's `run` callbacks, which return nothing. */
  function RunGrid(id: CommandId, ctx: Context): (out: (CallbackResult, Context))
    requires SectionOf(id) == Grid
    ensures out.0 == ReturnedNothing
  {
    GridCmd.Run(ctx, GridKind(id))
  }

  /** The zoom section's `run` callbacks. */
  function RunZoom(id: CommandId, ctx: Context): (out: (CallbackResult, Context))
    requires SectionOf(id) == Zoom
    ensures out.0 == Returned(ctx.canvas.Some?)
  {
    ZoomActionsNeedACanvas(id, ctx);
    Returning(ZoomAction(id)(ctx))
  }

  /** Every zoom command succeeds exactly when there is a canvas. */
  lemma ZoomActionsNeedACanvas(id: CommandId, ctx: Context)
    requires SectionOf(id) == Zoom
    ensures ZoomAction(id)(ctx).0 <==> ctx.canvas.Some?
  {
    match id
    case ZoomIn => assert ZoomAction(id)(ctx) == ZoomCmd.ZoomIn(ctx);
    case ZoomOut => assert ZoomAction(id)(ctx) == ZoomCmd.ZoomOut(ctx);
    case ZoomReset => assert ZoomAction(id)(ctx) == ZoomCmd.ResetView(ctx);
    case ZoomActual => assert ZoomAction(id)(ctx) == ZoomCmd.ActualSize(ctx);
    case ZoomFit => assert ZoomAction(id)(ctx) == ZoomCmd.FitToScreen(ctx);
  }

  /** The zoom command behind a zoom-section identifier. */
  function ZoomAction(id: CommandId): Context -> (bool, Context)
    requires SectionOf(id) == Zoom
  {
    match id
    case ZoomIn => ZoomCmd.ZoomIn
    case ZoomOut => ZoomCmd.ZoomOut
    case ZoomReset => ZoomCmd.ResetView
    case ZoomActual => ZoomCmd.ActualSize
    case ZoomFit => ZoomCmd.FitToScreen
  }

  /** Each section's `run` callbacks, as the section's command list carries them. */
  function Runner(section: SectionId): (CommandId, Context) --> (CallbackResult, Context) {
    match section
    case Text => RunText
    case Align => RunAlign
    case Distribute => RunDistribute
    case Resize => RunResize
    case Grouping => RunGrouping
    case Grid => RunGrid
    case Zoom => RunZoom
  }

  /** The command's `run`: what it returned and the context it leaves. No command touches the operations panel state. */
  function Run(id: CommandId, ctx: Context): (out: (CallbackResult, Context))
    ensures out.1.store.operations == ctx.store.operations
  {
    Runner(SectionOf(id))(id, ctx)
  }

  /**
   * `executeCommand`: a disabled command does nothing and reports false; a
   * run that returned `false` reports false; any other run (including one
   * that returned nothing) records the command as its section's last
   * command and reports true.
   */
  function ExecuteCommand(id: CommandId, ctx: Context): (out: (bool, Context))
    ensures out.0 <==> Succeeds(id, ctx)
    ensures !IsEnabled(id, ctx) ==> out.1 == ctx
    ensures out.1.canvas == (if IsEnabled(id, ctx) then Run(id, ctx).1.canvas else ctx.canvas)
    ensures out.0 ==>
      var section := SectionOf(id);
      && section in out.1.store.operations.lastCommand
      && out.1.store.operations.lastCommand[section] == id
      && out.1.store.(operations := ctx.store.operations) == Run(id, ctx).1.store
    ensures !out.0 ==> out.1.store.operations == ctx.store.operations
    ensures forall other :: other != SectionOf(id) ==>
      && (other in out.1.store.operations.lastCommand <==> other in ctx.store.operations.lastCommand)
      && (other in ctx.store.operations.lastCommand ==>
            out.1.store.operations.lastCommand[other] == ctx.store.operations.lastCommand[other])
  {
    GetCommandNeverFails(id);
    var cmd := GetCommand(id).value;
    assert cmd.section == SectionOf(id);
    if HasEnableTest(id) && !EnableTest(id, ctx) then (false, ctx)
    else
      var (result, after) := Run(id, ctx);
      if result == Returned(false) then (false, after)
      else (true, after.(store := SetLastCommand(after.store, cmd.section, cmd.id)))
  }

  /**
   * When each command executes, stated per section without reference to
   * the commands' own tests: text commands need text in the selection,
   * align and resize two objects, distribute three, group two, ungroup an
   * active group, lock and unlock one object, snapping a visible grid, the
   * zoom commands a canvas; the grid and guides toggles always execute.
   */
  predicate Available(id: CommandId, ctx: Context) {
    var count := if ctx.canvas.Some? then |GetActiveSelection(ctx.canvas.value).objects| else 0;
    match id
    case TextBold | TextItalic | TextUnderline | TextAlignLeft | TextAlignCenter | TextAlignRight =>
      ctx.canvas.Some? && TextCmd.HasText(GetActiveSelection(ctx.canvas.value).objects)
    case AlignLeft | AlignCenter | AlignRight | AlignTop | AlignMiddle | AlignBottom => count >= 2
    case DistributeHorizontal | DistributeVertical | DistributeSpaceHorizontal | DistributeSpaceVertical => count >= 3
    case ResizeMatchWidth | ResizeMatchHeight | ResizeMatchBoth => count >= 2
    case GroupingGroup => count >= 2
    case GroupingUngroup =>
      ctx.canvas.Some? && ActiveType(ctx.canvas.value) == Some(GroupingCmd.GROUP)
    case GroupingLock | GroupingUnlock => count >= 1
    case GridToggle | GridGuides => true
    case GridSnap => ctx.store.grid.showGrid
    case ZoomIn | ZoomOut | ZoomReset | ZoomActual | ZoomFit => ctx.canvas.Some?
  }

  /** Whether the command passes its enable test and its run does not return false. */
  predicate Succeeds(id: CommandId, ctx: Context) {
    IsEnabled(id, ctx) && Run(id, ctx).0 != Returned(false)
  }

  /** A text command's `run` reports whether its section's check passed. */
  lemma TextRunReports(id: CommandId, ctx: Context)
    requires SectionOf(id) == Text
    ensures Run(id, ctx).0 == Returned(TextCmd.IsEnabled(ctx))
  {
    assert Runner(SectionOf(id)) == RunText;
  }

  /** The text commands succeed exactly when text is selected. */
  lemma TextCommandsSucceedWhenAvailable(id: CommandId, ctx: Context)
    requires SectionOf(id) == Text
    ensures Succeeds(id, ctx) <==> Available(id, ctx)
  {
    var b := TextCmd.IsEnabled(ctx);
    TextRunReports(id, ctx);
    assert IsEnabled(id, ctx) == b;
    assert Available(id, ctx) == b;
  }

  /** A align command's `run` reports whether its section's check passed. */
  lemma AlignRunReports(id: CommandId, ctx: Context)
    requires SectionOf(id) == Align
    ensures Run(id, ctx).0 == Returned(AlignCmd.IsEnabled(ctx))
  {
    assert Runner(SectionOf(id)) == RunAlign;
  }

  /** The align commands succeed exactly when two objects are selected. */
  lemma AlignCommandsSucceedWhenAvailable(id: CommandId, ctx: Context)
    requires SectionOf(id) == Align
    ensures Succeeds(id, ctx) <==> Available(id, ctx)
  {
    var b := AlignCmd.IsEnabled(ctx);
    AlignRunReports(id, ctx);
    assert IsEnabled(id, ctx) == b;
    assert Available(id, ctx) == b;
  }

  /** A distribute command's `run` reports whether its section's check passed. */
  lemma DistributeRunReports(id: CommandId, ctx: Context)
    requires SectionOf(id) == Distribute
    ensures Run(id, ctx).0 == Returned(DistributeCmd.IsEnabled(ctx))
  {
    assert Runner(SectionOf(id)) == RunDistribute;
  }

  /** The distribute commands succeed exactly when three objects are selected. */
  lemma DistributeCommandsSucceedWhenAvailable(id: CommandId, ctx: Context)
    requires SectionOf(id) == Distribute
    ensures Succeeds(id, ctx) <==> Available(id, ctx)
  {
    var b := DistributeCmd.IsEnabled(ctx);
    DistributeRunReports(id, ctx);
    assert IsEnabled(id, ctx) == b;
    assert Available(id, ctx) == b;
  }

  /** A resize command's `run` reports whether its section's check passed. */
  lemma ResizeRunReports(id: CommandId, ctx: Context)
    requires SectionOf(id) == Resize
    ensures Run(id, ctx).0 == Returned(ResizeCmd.IsEnabled(ctx))
  {
    assert Runner(SectionOf(id)) == RunResize;
  }

  /** The resize commands succeed exactly when two objects are selected. */
  lemma ResizeCommandsSucceedWhenAvailable(id: CommandId, ctx: Context)
    requires SectionOf(id) == Resize
    ensures Succeeds(id, ctx) <==> Available(id, ctx)
  {
    var b := ResizeCmd.IsEnabled(ctx);
    ResizeRunReports(id, ctx);
    assert IsEnabled(id, ctx) == b;
    assert Available(id, ctx) == b;
  }

  /** The grouping commands succeed exactly when available; Group relies on an enabled selection being an active multi-selection. */
  lemma GroupingCommandsSucceedWhenAvailable(id: CommandId, ctx: Context)
    requires SectionOf(id) == Grouping
    ensures Succeeds(id, ctx) <==> Available(id, ctx)
  {
    var b := EnableTest(id, ctx);
    assert IsEnabled(id, ctx) == b;
    assert Available(id, ctx) == b;
    if id == GroupingGroup {
      assert Run(id, ctx).0 == Returned(GroupingCmd.Group(ctx).0) by {
        assert Run(id, ctx) == RunGrouping(id, ctx);
      }
      if b {
        GroupingCmd.GroupEnabledSucceeds(ctx);
      }
    } else {
      assert Run(id, ctx).0 == Returned(b) by {
        assert Run(id, ctx) == RunGrouping(id, ctx);
      }
    }
  }

  /** The grid commands always succeed, snapping only while the grid is shown. */
  lemma GridCommandsSucceedWhenAvailable(id: CommandId, ctx: Context)
    requires SectionOf(id) == Grid
    ensures Succeeds(id, ctx) <==> Available(id, ctx)
  {
    assert Run(id, ctx).0 == ReturnedNothing by {
      assert Run(id, ctx) == RunGrid(id, ctx);
    }
    assert Available(id, ctx) == IsEnabled(id, ctx);
  }

  /** The zoom commands succeed exactly when there is a canvas. */
  lemma ZoomCommandsSucceedWhenAvailable(id: CommandId, ctx: Context)
    requires SectionOf(id) == Zoom
    ensures Succeeds(id, ctx) <==> Available(id, ctx)
  {
    assert Run(id, ctx).0 == Returned(ctx.canvas.Some?) by {
      assert Run(id, ctx) == RunZoom(id, ctx);
    }
    assert IsEnabled(id, ctx);
    assert Available(id, ctx) == ctx.canvas.Some?;
  }

  /** A command executes exactly when it is available. */
  lemma ExecutesExactlyWhenAvailable(id: CommandId, ctx: Context)
    ensures ExecuteCommand(id, ctx).0 <==> Available(id, ctx)
  {
    match SectionOf(id)
    case Text => TextCommandsSucceedWhenAvailable(id, ctx);
    case Align => AlignCommandsSucceedWhenAvailable(id, ctx);
    case Distribute => DistributeCommandsSucceedWhenAvailable(id, ctx);
    case Resize => ResizeCommandsSucceedWhenAvailable(id, ctx);
    case Grouping => GroupingCommandsSucceedWhenAvailable(id, ctx);
    case Grid => GridCommandsSucceedWhenAvailable(id, ctx);
    case Zoom => ZoomCommandsSucceedWhenAvailable(id, ctx);
  }

  /**
   * The combo a command is bound under: its normalised hotkey, or none when
   * it has no hotkey or an empty one (`if (!cmd.hotkey) return`).
   */
  function HotkeyCombo(cmd: CommandDefinition): Option<string> {
    match cmd.hotkey
    case Some(h) => if h == "" then None else Some(NormalizeCombo(h))
    case None => None
  }

  /** Registers each command's handler under the combo `key` gives it, in order. */
  function RegisterEach(reg: Registry<CommandId>, cmds: seq<CommandDefinition>, key: CommandDefinition -> Option<string>): Registry<CommandId>
    decreases |cmds|
  {
    if |cmds| == 0 then reg else RegisterEach(RegisterOne(reg, cmds[0], key), cmds[1..], key)
  }

  /** Registers one command's handler under its combo, if it has one. */
  function RegisterOne(reg: Registry<CommandId>, cmd: CommandDefinition, key: CommandDefinition -> Option<string>): (r: Registry<CommandId>)
    ensures Attached(reg) ==> Attached(r)
    ensures reg.listenerAttached || key(cmd).Some? ==> r.listenerAttached
    ensures forall combo :: HandlersFor(r, combo) == HandlersFor(reg, combo) + (if key(cmd) == Some(combo) then [cmd.id] else [])
  {
    match key(cmd)
    case Some(k) => AddHandler(reg, k, cmd.id)
    case None => reg
  }

  /** The commands `key` binds to `combo`, in table order. */
  function BoundCommands(cmds: seq<CommandDefinition>, combo: string, key: CommandDefinition -> Option<string>): seq<CommandId> {
    if |cmds| == 0 then []
    else (if key(cmds[0]) == Some(combo) then [cmds[0].id] else []) + BoundCommands(cmds[1..], combo, key)
  }

  /** The loop of `initializeCommandHotkeys`: each command registered under its normalised hotkey. */
  function RegisterAll(reg: Registry<CommandId>, cmds: seq<CommandDefinition>): Registry<CommandId> {
    RegisterEach(reg, cmds, HotkeyCombo)
  }

  /**
   * After registering, a combo's handler list is what it held before
   * followed by the commands bound to it, in table order.
   */
  lemma {:induction false} RegisterEachHandlers(reg: Registry<CommandId>, cmds: seq<CommandDefinition>, key: CommandDefinition -> Option<string>, combo: string)
    ensures HandlersFor(RegisterEach(reg, cmds, key), combo) == HandlersFor(reg, combo) + BoundCommands(cmds, combo, key)
    decreases |cmds|
  {
    if |cmds| > 0 {
      var reg1 := RegisterOne(reg, cmds[0], key);
      var head: seq<CommandId> := if key(cmds[0]) == Some(combo) then [cmds[0].id] else [];
      var before, tail := HandlersFor(reg, combo), BoundCommands(cmds[1..], combo, key);
      assert HandlersFor(reg1, combo) == before + head;
      assert BoundCommands(cmds, combo, key) == head + tail;
      RegisterEachHandlers(reg1, cmds[1..], key, combo);
      assert RegisterEach(reg, cmds, key) == RegisterEach(reg1, cmds[1..], key);
      assert HandlersFor(RegisterEach(reg1, cmds[1..], key), combo) == (before + head) + tail;
      assert (before + head) + tail == before + (head + tail);
    }
  }

  /** Registering keeps the listener attached, and attaches it as soon as one command is bound. */
  lemma {:induction false} RegisterEachAttaches(reg: Registry<CommandId>, cmds: seq<CommandDefinition>, key: CommandDefinition -> Option<string>)
    requires Attached(reg)
    ensures Attached(RegisterEach(reg, cmds, key))
    ensures reg.listenerAttached ==> RegisterEach(reg, cmds, key).listenerAttached
    ensures |cmds| > 0 && key(cmds[0]).Some? ==> RegisterEach(reg, cmds, key).listenerAttached
    decreases |cmds|
  {
    if |cmds| > 0 {
      RegisterEachAttaches(RegisterOne(reg, cmds[0], key), cmds[1..], key);
    }
  }

  /** The hotkey binding state: whether hotkeys are bound, and the registry. */
  datatype HotkeyState = HotkeyState(bound: bool, registry: Registry<CommandId>)

  /** `initializeCommandHotkeys`: binds every command's hotkey the first time only. */
  function InitializeCommandHotkeys(st: HotkeyState): (r: HotkeyState)
    ensures r.bound
    ensures st.bound ==> r == st
    ensures !st.bound ==> r.registry == RegisterAll(st.registry, AllCommands())
  {
    if st.bound then st else HotkeyState(true, RegisterAll(st.registry, AllCommands()))
  }

  /**
   * Binding from a fresh registry: every key event calls exactly the
   * commands whose hotkey normalises to the event's combo, in table order,
   * and binding a second time changes nothing.
   */
  lemma InitializeBindsEveryHotkey(e: KeyEvent)
    ensures var st := InitializeCommandHotkeys(HotkeyState(false, Registry(map[], false)));
      && Dispatch(st.registry, e) == BoundCommands(AllCommands(), EventToCombo(e), HotkeyCombo)
      && InitializeCommandHotkeys(st) == st
  {
    var cmds := AllCommands();
    assert cmds[0].hotkey == Some("ctrl+b");
    RegisterEachAttaches(Registry(map[], false), cmds, HotkeyCombo);
    RegisterEachHandlers(Registry(map[], false), cmds, HotkeyCombo, EventToCombo(e));
  }

  /**
   * A hotkey handler: executes its command with the event's outcome; the
   * browser default is prevented exactly when the command executed.
   */
  function HandleHotkey(id: CommandId, ctx: Context): (bool, Context) {
    ExecuteCommand(id, ctx)
  }

  /**
   * A key event: the handlers for its combo run in order, each on the
   * context the previous one left; the default is prevented when any of
   * them executed its command.
   */
  function RunHandlers(ids: seq<CommandId>, ctx: Context): (out: (bool, Context))
    ensures |ids| == 0 ==> out == (false, ctx)
    ensures |ids| == 1 ==> out == ExecuteCommand(ids[0], ctx)
  {
    if |ids| == 0 then (false, ctx)
    else
      var first := HandleHotkey(ids[0], ctx);
      var rest := RunHandlers(ids[1..], first.1);
      (first.0 || rest.0, rest.1)
  }

  /**
   * Handlers sharing one combo run in registration order: one more handler
   * executes its command on the context the earlier ones left, and the
   * default is prevented when it or any earlier one executed.
   */
  lemma {:induction false} RunHandlersAppend(ids: seq<CommandId>, id: CommandId, ctx: Context)
    ensures var before := RunHandlers(ids, ctx);
      var last := ExecuteCommand(id, before.1);
      RunHandlers(ids + [id], ctx) == (before.0 || last.0, last.1)
  {
    if |ids| > 0 {
      var first := HandleHotkey(ids[0], ctx);
      assert (ids + [id])[0] == ids[0];
      assert (ids + [id])[1..] == ids[1..] + [id];
      RunHandlersAppend(ids[1..], id, first.1);
    }
  }

  /** With one command bound to the event's combo, the event executes that command and nothing else. */
  lemma KeyDownRunsItsCommand(st: HotkeyState, e: KeyEvent, ctx: Context, id: CommandId)
    requires Dispatch(st.registry, e) == [id]
    ensures RunHandlers(Dispatch(st.registry, e), ctx) == ExecuteCommand(id, ctx)
  {
  }
}
