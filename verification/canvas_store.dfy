/**
 * The editor's UI-state store (editor/src/store/canvas.ts): the view
 * transform, the viewport size, a summary of the selection, the operations
 * sidebar (open sections and last command per section) and the grid flags.
 * Every action is a pure transition from one store value to the next.
 */
module CanvasStore {
  import opened Wrappers
  import opened Geometry
  import opened Seqs
  import opened CommandTypes
  import opened Scene

  datatype SelectionState = SelectionState(count: nat, hasText: bool, hasMultiple: bool, activeType: Option<string>)

  datatype GridState = GridState(showGrid: bool, snapToGrid: bool, showGuides: bool, size: real)

  datatype OperationsState = OperationsState(openSections: seq<SectionId>, lastCommand: map<SectionId, CommandId>)

  datatype Store = Store(
    view: ViewportTransform,
    viewportSize: Size,
    selection: SelectionState,
    operations: OperationsState,
    grid: GridState)

  const DEFAULT_SECTIONS: seq<SectionId> := SECTION_ORDER
  const DEFAULT_GRID_SIZE: real := 20.0

  /** The operations state used when nothing (or nothing readable) was persisted. */
  const DefaultOperations: OperationsState := OperationsState(DEFAULT_SECTIONS, map[])

  /**
   * The store as created; `operations` is whatever was loaded from persistent
   * storage (DefaultOperations when there was none).
   */
  function Initial(operations: OperationsState): (s: Store)
    ensures s.view.zoom == 1.0 && s.view.offsetX == 0.0 && s.view.offsetY == 0.0
    ensures s.viewportSize.width == 0.0 && s.viewportSize.height == 0.0
    ensures !s.grid.showGrid && !s.grid.snapToGrid && !s.grid.showGuides && s.grid.size == DEFAULT_GRID_SIZE
    ensures s.selection.count == 0 && !s.selection.hasText && !s.selection.hasMultiple && s.selection.activeType.None?
    ensures s.operations == operations
  {
    Store(
      ViewportTransform(1.0, 0.0, 0.0),
      Size(0.0, 0.0),
      SelectionState(0, false, false, None),
      operations,
      GridState(false, false, false, DEFAULT_GRID_SIZE))
  }

  /** The store's own text test: a `textbox`, `text` or `i-text` object. */
  predicate CountsAsText(o: CanvasObject) {
    o.kind == "textbox" || o.kind == "text" || o.kind == "i-text"
  }

  /** `objs.some(...)` for the store's text test. */
  function AnyText(objs: seq<CanvasObject>): (b: bool)
    ensures b <==> exists i :: 0 <= i < |objs| && CountsAsText(objs[i])
  {
    if |objs| == 0 then false
    else
      assert forall i :: 1 <= i < |objs| ==> objs[i] == objs[1..][i - 1];
      CountsAsText(objs[0]) || AnyText(objs[1..])
  }

  function SetSelection(s: Store, objs: seq<CanvasObject>): (t: Store)
    ensures t.selection.count == |objs|
    ensures t.selection.hasMultiple <==> |objs| > 1
    ensures t.selection.activeType == (if |objs| > 0 then Some(objs[0].kind) else None)
    ensures t.selection.hasText <==> exists i :: 0 <= i < |objs| && CountsAsText(objs[i])
    ensures t.(selection := s.selection) == s
  {
    s.(selection := SelectionState(
      |objs|,
      AnyText(objs),
      |objs| > 1,
      if |objs| > 0 then Some(objs[0].kind) else None))
  }

  /** A partial view: each supplied field overrides, each absent one is kept. */
  datatype PartialView = PartialView(zoom: Option<real>, offsetX: Option<real>, offsetY: Option<real>)

  function SetView(s: Store, partial: PartialView): (t: Store)
    ensures t.view.zoom == partial.zoom.GetOr(s.view.zoom)
    ensures t.view.offsetX == partial.offsetX.GetOr(s.view.offsetX)
    ensures t.view.offsetY == partial.offsetY.GetOr(s.view.offsetY)
    ensures partial == PartialView(None, None, None) ==> t == s
    ensures t.(view := s.view) == s
  {
    s.(view := ViewportTransform(
      partial.zoom.GetOr(s.view.zoom),
      partial.offsetX.GetOr(s.view.offsetX),
      partial.offsetY.GetOr(s.view.offsetY)))
  }

  /** Replaces the whole view; a full partial view does the same. */
  function SetViewportTransform(s: Store, t: ViewportTransform): (u: Store)
    ensures u.view == t
    ensures u == SetView(s, PartialView(Some(t.zoom), Some(t.offsetX), Some(t.offsetY)))
  {
    s.(view := t)
  }

  function SetViewportSize(s: Store, width: real, height: real): (t: Store)
    ensures t.viewportSize == Size(width, height)
    ensures t.(viewportSize := s.viewportSize) == s
  {
    s.(viewportSize := Size(width, height))
  }

  /**
   * `Array.from(set)` after adding or deleting `id` in `new Set(open)`: the
   * duplicates collapse to their first occurrence, in that order; an id
   * that was not there is added last, one that was keeps its place.
   */
  function OpenSectionsAfter(open: seq<SectionId>, id: SectionId, isOpen: bool): (r: seq<SectionId>)
    ensures NoDups(r)
    ensures id in r <==> isOpen
    ensures forall x :: x != id ==> (x in r <==> x in open)
    ensures Without(r, id) == Without(Dedupe(open), id)
    ensures isOpen && id !in open ==> r == Dedupe(open) + [id]
    ensures isOpen && id in open ==> r == Dedupe(open)
    ensures !isOpen ==> r == Without(Dedupe(open), id)
  {
    var d := Dedupe(open);
    if isOpen then
      if id in d then d
      else
        WithoutAppend(d, id);
        d + [id]
    else
      WithoutTwice(d, id);
      Without(d, id)
  }

  function SetSectionOpen(s: Store, id: SectionId, isOpen: bool): (t: Store)
    ensures t.operations.openSections == OpenSectionsAfter(s.operations.openSections, id, isOpen)
    ensures t.operations.lastCommand == s.operations.lastCommand
    ensures t.(operations := s.operations) == s
  {
    s.(operations := s.operations.(openSections := OpenSectionsAfter(s.operations.openSections, id, isOpen)))
  }

  function ToggleSection(s: Store, id: SectionId): (t: Store)
    ensures id in t.operations.openSections <==> id !in s.operations.openSections
    ensures forall x :: x != id ==> (x in t.operations.openSections <==> x in s.operations.openSections)
    ensures NoDups(t.operations.openSections)
    ensures t.operations.lastCommand == s.operations.lastCommand
    ensures t.(operations := s.operations) == s
  {
    SetSectionOpen(s, id, id !in s.operations.openSections)
  }

  /**
   * Toggling a section twice restores every section's membership; a closed
   * section comes back exactly as the list was, an open one moves to the end.
   */
  lemma ToggleSectionTwice(s: Store, id: SectionId)
    requires NoDups(s.operations.openSections)
    ensures var open := s.operations.openSections;
            var open2 := ToggleSection(ToggleSection(s, id), id).operations.openSections;
            && (forall x :: x in open2 <==> x in open)
            && (id !in open ==> open2 == open)
            && (id in open ==> open2 == Without(open, id) + [id])
  {
    var open := s.operations.openSections;
    DedupeOfNoDups(open);
    var open1 := ToggleSection(s, id).operations.openSections;
    DedupeOfNoDups(open1);
    if id !in open {
      assert open1 == open + [id];
      WithoutAppend(open, id);
      assert open1[..|open1| - 1] == open;
    } else {
      assert open1 == Without(open, id);
    }
  }

  function SetLastCommand(s: Store, section: SectionId, cmd: CommandId): (t: Store)
    ensures section in t.operations.lastCommand && t.operations.lastCommand[section] == cmd
    ensures forall k :: k != section ==> (k in t.operations.lastCommand <==> k in s.operations.lastCommand)
    ensures forall k :: k != section && k in s.operations.lastCommand ==> t.operations.lastCommand[k] == s.operations.lastCommand[k]
    ensures t.operations.openSections == s.operations.openSections
    ensures t.(operations := s.operations) == s
  {
    s.(operations := s.operations.(lastCommand := s.operations.lastCommand[section := cmd]))
  }

  function ToggleGrid(s: Store): (t: Store)
    ensures t.grid.showGrid == !s.grid.showGrid
    ensures t.(grid := t.grid.(showGrid := s.grid.showGrid)) == s
  {
    s.(grid := s.grid.(showGrid := !s.grid.showGrid))
  }

  function ToggleSnap(s: Store): (t: Store)
    ensures t.grid.snapToGrid == !s.grid.snapToGrid
    ensures t.(grid := t.grid.(snapToGrid := s.grid.snapToGrid)) == s
  {
    s.(grid := s.grid.(snapToGrid := !s.grid.snapToGrid))
  }

  function ToggleGuides(s: Store): (t: Store)
    ensures t.grid.showGuides == !s.grid.showGuides
    ensures t.(grid := t.grid.(showGuides := s.grid.showGuides)) == s
  {
    s.(grid := s.grid.(showGuides := !s.grid.showGuides))
  }

  /** Each grid toggle undoes itself. */
  lemma GridTogglesAreInvolutions(s: Store)
    ensures ToggleGrid(ToggleGrid(s)) == s
    ensures ToggleSnap(ToggleSnap(s)) == s
    ensures ToggleGuides(ToggleGuides(s)) == s
  {
  }

  datatype PartialGrid = PartialGrid(showGrid: Option<bool>, snapToGrid: Option<bool>, showGuides: Option<bool>, size: Option<real>)

  function SetGridState(s: Store, partial: PartialGrid): (t: Store)
    ensures t.grid.showGrid == partial.showGrid.GetOr(s.grid.showGrid)
    ensures t.grid.snapToGrid == partial.snapToGrid.GetOr(s.grid.snapToGrid)
    ensures t.grid.showGuides == partial.showGuides.GetOr(s.grid.showGuides)
    ensures t.grid.size == partial.size.GetOr(s.grid.size)
    ensures t.(grid := s.grid) == s
  {
    s.(grid := GridState(
      partial.showGrid.GetOr(s.grid.showGrid),
      partial.snapToGrid.GetOr(s.grid.snapToGrid),
      partial.showGuides.GetOr(s.grid.showGuides),
      partial.size.GetOr(s.grid.size)))
  }
}
