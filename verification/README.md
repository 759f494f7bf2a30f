# HMI editor commands, viewport and widgets in Dafny

This project is a functional model of the core of an HMI dashboard editor and viewer built on a canvas library. It covers:

- the editor's command layer: text formatting, align, distribute, resize, grouping and locking, grid toggles and zoom, plus the registry that lists, enables, executes and binds commands to hotkeys;
- the UI-state store those commands write to;
- the viewport-transform arithmetic (`clampZoom`, `zoomToPointTransform`, `fitRectToViewport`);
- hotkey-combo normalisation and dispatch;
- the state logic of the slide switch (editor and viewer), the LED indicator, the number display (editor and viewer) and the shared text helpers.

The model is pure. A canvas is a record with:

- its objects, each carrying a bounding box, a kind, text styles and lock flags;
- its active object, which names objects by their position in the list: one object, or a multi-selection of several. A command that edits the selection therefore edits the canvas's own objects;
- its viewport transform and size;
- a log of the canvas-library calls it makes (scale-to-width/height, group/ungroup).

Every command is a function from a `Context` (an optional canvas plus the store) to the boolean it returns and the next context. Numbers are mathematical reals. A widget is its state plus the pure functions that compute what it sets on its drawing and what it emits. Clock readings are passed in as integers.

The modules follow the source files:

| file | module(s) | source |
|---|---|---|
| wrappers.dfy, seqs.dfy, strings.dfy, geometry.dfy | `Wrappers`, `Seqs`, `Strings`, `Geometry` | JavaScript built-ins used by the core: `Option`, `filter`/`indexOf` de-duplication, `split`/`join`/`trim`/`toLowerCase`, `Math.min`/`Math.max` |
| zoom_math.dfy | `ZoomMath` | editor/src/utils/zoom.ts |
| command_types.dfy, scene.dfy | `CommandTypes`, `Scene` | editor/src/commands/types.ts; the canvas objects the commands read |
| canvas_store.dfy | `CanvasStore` | editor/src/store/canvas.ts |
| command_utils.dfy | `CommandUtils` | editor/src/commands/utils.ts |
| align.dfy, distribute.dfy, resize.dfy, text_commands.dfy, grouping.dfy, grid.dfy, zoom_commands.dfy | one module per command file | editor/src/commands/*.ts |
| hotkeys.dfy | `Hotkeys` | editor/src/utils/hotkeys.ts |
| commands.dfy | `Commands` | editor/src/commands/index.ts |
| elements.dfy, toggle_button.dfy, led_indicator.dfy, number_display.dfy, text_mixin.dfy | `Elements`, `EditorToggle`, `ViewerToggle`, `LedIndicator`, `NumberText`, `EditorNumberDisplay`, `ViewerNumberDisplay`, `TextMixin` | editor/src/elements/{ToggleButton,LedIndicator,NumberDisplay}.ts, editor/src/elements/mixins/TextMixin.ts, viewer/src/elements/{ToggleButton,NumberDisplay}.ts |

## Model

| member | source | states |
|---|---|---|
| Geometry.Translate | editor/src/commands/align.ts:40-43 | Moving an object by (dx, dy) moves its bounding box by exactly that amount and keeps its size. |
| Geometry.AlongAxis | editor/src/commands/distribute.ts:29-37 | A move along one axis shifts every box's leading edge on that axis by the amount and leaves the other coordinate alone. |
| Geometry.MinOf | editor/src/commands/align.ts:10-12 | `Math.min(...xs)` over a non-empty list is a lower bound of the list and is one of its elements. |
| Geometry.MaxOf | editor/src/commands/align.ts:11-13 | `Math.max(...xs)` over a non-empty list is an upper bound of the list and is one of its elements. |
| Seqs.Dedupe | editor/src/utils/hotkeys.ts:30 | Keeping first occurrences yields a duplicate-free list with exactly the same members, in the order of their first occurrence in the input. |
| Seqs.DedupeOfNoDups | editor/src/utils/hotkeys.ts:30 | De-duplicating a list that has no duplicates returns it unchanged. |
| Seqs.Filter | editor/src/utils/hotkeys.ts:26-28 | `filter` keeps only members that pass the test, every member of the list that passes is kept, and the result is no longer than the list. |
| Seqs.FilterKeepsOrder | editor/src/commands/index.ts:29-31 | Filtering a duplicate-free list gives a duplicate-free list whose members keep their relative order from the original. |
| Seqs.FilterEndsWithLastMatch | editor/src/utils/hotkeys.ts:28-29 | When anything passes, the last member of the filtered list is a member of the original that no later member passes after. |
| Seqs.DedupeSnocNew | editor/src/utils/hotkeys.ts:30 | Appending a value not yet in the list appends it to the de-duplicated list as well. |
| Seqs.IndexOf | editor/src/utils/hotkeys.ts:30-33 | `indexOf` finds the first position holding the value. |
| Seqs.Without | editor/src/store/canvas.ts:86-89 | Deleting a value from a list removes it and keeps every other member. Order and absence of duplicates are preserved. |
| Seqs.WithoutKeepsOrder | editor/src/store/canvas.ts:86-89 | Deleting a value from a duplicate-free list keeps the remaining members in their original relative order. |
| Strings.Split | editor/src/utils/hotkeys.ts:24 | `split` yields at least one piece. No piece contains the separator. Joining the pieces gives back the string. |
| Strings.SplitJoin | editor/src/utils/hotkeys.ts:24 | Splitting a join of separator-free pieces gives back the pieces. |
| Strings.JoinInjective | editor/src/utils/hotkeys.ts:35-36 | Distinct lists of separator-free pieces join to distinct strings. |
| Strings.Trim | editor/src/utils/hotkeys.ts:25 | `trim` returns the slice of the input between the leading and trailing white space, and that slice neither starts nor ends with white space. |
| Strings.TrimIsIdempotent | editor/src/utils/hotkeys.ts:25 | Trimming twice is trimming once. |
| Strings.Lower | editor/src/utils/hotkeys.ts:25 | `toLowerCase` maps each character through the letter case map and keeps the length. |
| Strings.LowerFacts | editor/src/utils/hotkeys.ts:25 | Lower-casing yields lower case, leaves exactly the lower-case strings alone, keeps trimmed strings trimmed and keeps '+' where it was. |
| ZoomMath.ClampZoom | editor/src/utils/zoom.ts:22-24 | `min(max, max(min, zoom))`: inside [min, max] the zoom is kept, below it becomes min, above it becomes max, and max wins when the bounds cross. |
| ZoomMath.ToContent | editor/src/utils/zoom.ts:32-35 | For a non-zero zoom, the content point under a screen point maps back onto that screen point. |
| ZoomMath.SafeZoom | editor/src/utils/zoom.ts:32 | A zero current zoom is read as 1. Any other zoom is kept. |
| ZoomMath.ZoomToPointTransform | editor/src/utils/zoom.ts:26-41 | The new zoom is the requested one clamped to the default limits [0.25, 4]. |
| ZoomMath.ZoomKeepsPointStationary | editor/src/utils/zoom.ts:31-40 | The content point that was under the anchor point is still under it after the zoom. |
| ZoomMath.ZeroZoomReadsAsOne | editor/src/utils/zoom.ts:32-35 | Zooming from a zero zoom gives the same transform as zooming from zoom 1. |
| ZoomMath.ZoomAtPointerExample | editor/tests/zoom.test.ts:5-12 | Zooming from the identity to 2 about (120, 80) gives offsets (-120, -80). |
| ZoomMath.Available | editor/src/utils/zoom.ts:54-55 | The room left after padding on both sides is at least 1 and at least the extent less twice the padding, and it is one of those two values: the larger of the two. |
| ZoomMath.Effective | editor/src/utils/zoom.ts:51-52 | The content extent is floored at 1: the result is at least 1 and at least the extent, and it is one of the two. |
| ZoomMath.CentringOffset | editor/src/utils/zoom.ts:61-62 | The offset puts the centre of the content extent on the middle of the viewport. |
| ZoomMath.CentredAt | editor/src/utils/zoom.ts:61-64 | The transform at a given zoom maps the middle of the content onto the middle of the viewport. |
| ZoomMath.FitRectToViewport | editor/src/utils/zoom.ts:43-65 | The fitted zoom lies within the limits (when they are ordered), and the content's middle lands on the viewport's middle. |
| ZoomMath.FitIsLargestThatFits | editor/src/utils/zoom.ts:57-59 | Unless the zoom was clamped up to the minimum, the content fits in the padded viewport on both axes. The zoom is a limit or fills one axis exactly. |
| ZoomMath.ClampedFit | editor/src/utils/zoom.ts:57-59 | The same fitting property for any pair of ratios clamped into ordered limits. |
| ZoomMath.FitExample | editor/tests/zoom.test.ts:25-32 | 100x50 content in a 400x200 viewport with padding 20 is shown at zoom 3.2 with offsets (40, 20). |
| ZoomMath.FitClampsToDefaultMinimum | editor/tests/zoom.test.ts:34-39 | 1000x1000 content in a 200x200 viewport is shown at exactly the default minimum zoom 0.25. |
| Scene.Moved | editor/src/commands/align.ts:40-43 | Moving an object adds the delta to its position and its bounding box and changes nothing else. |
| Scene.BoundsOf | editor/src/commands/utils.ts:36-38 | The bounding boxes of a list of objects, in order. |
| Scene.Remaining | editor/src/commands/grouping.ts:18 | Taking positions out of the list leaves no more objects than it had, only objects that were in it, and the list itself when no position is listed. |
| Scene.Kept | editor/src/commands/grouping.ts:18 | The positions that survive a removal: exactly the in-range positions not listed, in increasing order. |
| Scene.RemainingKeepsTheRest | editor/src/commands/grouping.ts:18 | The k-th object left after a removal is the object at the k-th unlisted position, so the survivors keep their order. |
| Scene.RemainingKeepsUnlisted | editor/src/commands/grouping.ts:18 | Every object at a position that is not listed survives the removal. |
| CanvasStore.Initial | editor/src/store/canvas.ts:59-65 | The store starts at zoom 1 with no offset and a 0x0 viewport size. Every grid flag is off and the grid size is 20. The selection summary is empty and the operations state is the loaded one. |
| CanvasStore.AnyText | editor/src/store/canvas.ts:74 | True exactly when some object is a textbox, text or i-text. |
| CanvasStore.SetSelection | editor/src/store/canvas.ts:70-75 | The summary holds the count, whether there is more than one object, the first object's type (none when empty) and whether any is text. Nothing else changes. |
| CanvasStore.SetView | editor/src/store/canvas.ts:76-78 | Each given view field replaces the old one and missing fields keep theirs. An empty patch is a no-op. Nothing else changes. |
| CanvasStore.SetViewportTransform | editor/src/store/canvas.ts:79-81 | Setting the whole transform is a view patch that gives every field. |
| CanvasStore.SetViewportSize | editor/src/store/canvas.ts:82-84 | Only the viewport size changes. |
| CanvasStore.OpenSectionsAfter | editor/src/store/canvas.ts:85-89 | The Set round trip removes duplicates. The section is present exactly when asked to be open. Every other section keeps its membership. Opening a section that was not open appends it after the de-duplicated list; opening one already open leaves the de-duplicated list as it is; closing deletes it from the de-duplicated list. |
| CanvasStore.SetSectionOpen | editor/src/store/canvas.ts:85-91 | Only the open-section list changes, as above. |
| CanvasStore.ToggleSection | editor/src/store/canvas.ts:92-95 | The section's membership flips and every other section's stays. The last-command record and the rest of the store (view, viewport size, selection, grid) are unchanged. |
| CanvasStore.ToggleSectionTwice | editor/src/store/canvas.ts:92-95 | Toggling twice restores membership. An initially closed section leaves the list exactly as it was. An open one moves to the end. |
| CanvasStore.SetLastCommand | editor/src/store/canvas.ts:96-99 | The section now maps to the command and every other section's entry is unchanged. |
| CanvasStore.ToggleGrid | editor/src/store/canvas.ts:100-102 | Only `showGrid` flips. |
| CanvasStore.ToggleSnap | editor/src/store/canvas.ts:103-105 | Only `snapToGrid` flips. |
| CanvasStore.ToggleGuides | editor/src/store/canvas.ts:106-108 | Only `showGuides` flips. |
| CanvasStore.GridTogglesAreInvolutions | editor/src/store/canvas.ts:100-108 | Each grid toggle applied twice restores the store. |
| CanvasStore.SetGridState | editor/src/store/canvas.ts:109-111 | Each given grid field replaces the old one, missing fields keep theirs, and nothing outside the grid changes. |
| CommandUtils.GetActiveSelection | editor/src/commands/utils.ts:20-30 | No active object gives no objects. A multi-selection gives its members. Any other active object gives itself. Each selected object is the canvas object at the position the selection names, so the selection reads the canvas's own objects. |
| CommandUtils.ActiveType | editor/src/commands/grouping.ts:16-17 | The active object's type: none without an active object, "activeSelection" for a multi-selection, otherwise the object's own kind. |
| CommandUtils.TextTestsAgree | editor/src/commands/utils.ts:32-34 | The commands' text test and the store's text test accept the same objects. |
| CommandUtils.WithCanvas | editor/src/commands/utils.ts:40-46 | Without a canvas the result is false and nothing changes. Otherwise the result is false only when the callback returned exactly false. |
| CommandUtils.WriteSelection | editor/src/commands/utils.ts:20-30 | Edited selected objects are the canvas's objects: writing them back replaces the object at each selected position, leaves every other object, the active object and the viewport alone, and is read back as written. Writing back the objects just read changes nothing. |
| CommandUtils.RunOnSelection | editor/src/commands/utils.ts:40-46 | A selection edit runs on the active selection's objects; its edited objects replace the canvas objects at the selected positions and nothing else in the object list changes. Its canvas-library calls are appended, it returns the edit's verdict, and the store is untouched. |
| CommandUtils.SelectionHasAtLeast | editor/src/commands/resize.ts:33 | True exactly when there is a canvas and its active selection has at least n objects. |
| Align.AlignDeltas | editor/src/commands/align.ts:17-39 | One move per box. |
| Align.Aligned | editor/src/commands/align.ts:10-39 | Every box keeps its size and cross-axis position. For left/top every leading edge lands on the minimum. For right/bottom every trailing edge lands on the maximum. For centre/middle every centre lands on the midpoint of the two. |
| Align.AlignedIsTranslation | editor/src/commands/align.ts:40-43 | Each aligned box is the original box translated by its computed delta. |
| Align.DeltasFromLayout | editor/src/commands/align.ts:40-43 | The delta is recovered from the box before and after. |
| Align.AlignedStaysWithinSpan | editor/src/commands/align.ts:10-39 | No aligned box leaves the span of the original selection on the aligned axis. |
| Align.AlignedKeepsItsAnchor | editor/src/commands/align.ts:10-39 | The minimum (left/top), maximum (right/bottom) or midpoint (centre/middle) of the selection is the same after aligning. |
| Align.AlignIsIdempotent | editor/src/commands/align.ts:4-50 | Aligning an aligned selection computes only zero deltas and leaves every box where it is. |
| Align.AlignedNeedsNoMove | editor/src/commands/align.ts:17-39 | Every delta computed on an aligned selection is zero. |
| Align.AnchoredBoxNeedsNoMove | editor/src/commands/align.ts:20-39 | A box already on the mode's anchor gets a zero delta. |
| Align.AlignSelection | editor/src/commands/align.ts:4-50 | Fewer than two objects: false and nothing moves. Otherwise true, and every object moves by the delta taking its box onto the aligned box. |
| Align.AlignMovesMatchLayout | editor/src/commands/align.ts:40-43 | The deltas applied to the objects are exactly the moves from their boxes to the aligned boxes. |
| Align.IsEnabled | editor/src/commands/align.ts:59 | Enabled exactly when at least two objects are selected. |
| Align.Run | editor/src/commands/align.ts:4-50 | Returns true exactly when enabled. When it fails nothing changes, and it never touches the store. With a canvas, the canvas objects at the selected positions become the aligned selection and no other object changes. |
| Align.RunMovesTheCanvasObjects | editor/src/commands/align.ts:6-45 | After an enabled run, the canvas object at each selected position has the aligned bounding box, and every unselected object is unchanged. |
| Resize.CallsFromTargets | editor/src/commands/resize.ts:14-26 | Every scaling call made from position k onward addresses a position from k to the end. |
| Resize.WidthCallsExactly | editor/src/commands/resize.ts:15-19 | A scale-to-width call with width w addresses position i exactly when i is visited, w is the reference width, the mode asks for width, the width is positive and the object can scale. |
| Resize.HeightCallsExactly | editor/src/commands/resize.ts:20-24 | The same characterisation for height. |
| Resize.CallsInOrder | editor/src/commands/resize.ts:14-26 | Calls are made in selection order, the width call before the height call for the same object. |
| Resize.ResizeSelection | editor/src/commands/resize.ts:4-31 | Fewer than two objects: false and no calls. Otherwise true, and every call addresses an object after the first, in call order. Objects themselves are not edited. |
| Resize.ResizeCallsExactly | editor/src/commands/resize.ts:9-24 | Every object after the first receives a width/height call exactly when the mode, the reference size being positive and the object's capability allow it, and always with the first object's size. |
| Resize.IsEnabled | editor/src/commands/resize.ts:33 | Enabled exactly when at least two objects are selected. |
| Resize.Run | editor/src/commands/resize.ts:4-31 | Returns true exactly when enabled. Its only effect is to append the resize calls to the canvas log. |
| Distribute.Insert | editor/src/commands/distribute.ts:10-14 | Inserting an index into a sorted index list keeps it sorted by (key, original position) and adds exactly that index. |
| Distribute.SortOrder | editor/src/commands/distribute.ts:10-14 | The stable sort order of the first n indices is a sorted arrangement of exactly those indices. |
| Distribute.Order | editor/src/commands/distribute.ts:10-14 | The sort is a permutation of the selection's positions. |
| Distribute.OrderIsStable | editor/src/commands/distribute.ts:10-14 | The permutation orders boxes by leading edge, ties by selection order. |
| Distribute.Sorted | editor/src/commands/distribute.ts:10-16 | The sorted list has one box per selected object. |
| Distribute.SpaceWalk | editor/src/commands/distribute.ts:47-63 | The cursor walk yields one move per remaining position. |
| Distribute.WalkSpacing | editor/src/commands/distribute.ts:47-63 | The imperative cursor loop computes exactly the moves of the recursive walk. |
| Distribute.Amounts | editor/src/commands/distribute.ts:19-63 | One move per sorted box. |
| Distribute.Distributed | editor/src/commands/distribute.ts:4-65 | Every box keeps its size and cross-axis position. |
| Distribute.PositionOf | editor/src/commands/distribute.ts:10-14 | Each selected object has a place in the sorted order. |
| Distribute.DistributedAt | editor/src/commands/distribute.ts:27-63 | The object at sorted place k is moved along the axis by the k-th computed amount. |
| Distribute.GapsIsProduct | editor/src/commands/distribute.ts:30 | k gaps laid end to end measure `step * k`. |
| Distribute.SharesFill | editor/src/commands/distribute.ts:46 | n shares of `free / n` add up to `free`. |
| Distribute.GapsSpanTheFree | editor/src/commands/distribute.ts:41-46 | count-1 gaps of size `gap` fill the span less the total size exactly. |
| Distribute.SpaceWalkCursor | editor/src/commands/distribute.ts:47-63 | At every interior position the cursor is the start plus the extents walked past plus one gap per step. |
| Distribute.SpaceWalkLeavesLast | editor/src/commands/distribute.ts:53 | The walk never moves the last position. |
| Distribute.WalkLeavesLast | editor/src/commands/distribute.ts:49-53 | A walk started from the first box never moves the last box. |
| Distribute.WalkInterior | editor/src/commands/distribute.ts:54-62 | An interior box's new leading edge is the first leading edge plus the extents before it plus one gap per predecessor. |
| Distribute.SpacingClosedForm | editor/src/commands/distribute.ts:41-63 | For every sorted place k (ends included), the box's new leading edge is the first leading edge plus the extents before it plus k gaps. |
| Distribute.SpacingInterior | editor/src/commands/distribute.ts:54-62 | The closed form at interior places. |
| Distribute.SpacingLast | editor/src/commands/distribute.ts:41-53 | The closed form at the last place, where the box does not move. |
| Distribute.CentersClosedForm | editor/src/commands/distribute.ts:19-37 | For every sorted place k the new centre is the first centre plus k steps. |
| Distribute.EndAmountsAreZero | editor/src/commands/distribute.ts:28-53 | Both strategies compute no move for the first and last sorted boxes. |
| Distribute.EndsStayPut | editor/src/commands/distribute.ts:28-53 | The first and last boxes in sorted order are exactly where they were. |
| Distribute.SpacingMakesEqualGaps | editor/src/commands/distribute.ts:38-63 | After `space`, every pair of neighbours in sorted order is separated by the same gap. |
| Distribute.SpacingKeepsTheSpan | editor/src/commands/distribute.ts:41-46 | After `space` distribution, the distance from the first box's new leading edge to the last box's new trailing edge, in sorted order, is the boxes' total extent plus count-1 of the gaps that now separate neighbours. |
| Distribute.CentersAreEvenlySpaced | editor/src/commands/distribute.ts:19-37 | After `center`, neighbouring centres in sorted order are one step apart. |
| Distribute.CenteredAt | editor/src/commands/distribute.ts:26-36 | The centre at sorted place k lands on the first centre plus k steps. |
| Distribute.ExampleLayout | editor/src/commands/distribute.ts:10-46 | Boxes at lefts 0, 100, 40 sort as first, third, second with a gap of 40. |
| Distribute.SpacingExample | editor/src/commands/distribute.ts:38-63 | Those boxes come out with the middle one at left 50 and the others unmoved. |
| Distribute.ThreeInOrder | editor/src/commands/distribute.ts:10-14 | Strictly increasing lefts are already in sorted order. |
| Distribute.MiddleLeadsThree | editor/src/commands/distribute.ts:10-14 | A middle box with the smallest left is sorted first. |
| Distribute.CentersFirstRun | editor/src/commands/distribute.ts:19-37 | Lefts 0, 50, 60 with widths 10, 100, 10: the wide box is centred at 35 and so starts at -15. |
| Distribute.CentersSecondRun | editor/src/commands/distribute.ts:10-37 | With the wide box now first, the box at left 0 is moved onto centre 50. |
| Distribute.CentersIsNotIdempotent | editor/src/commands/distribute.ts:4-70 | Running `center` twice can move boxes again, so the command is not idempotent. |
| Distribute.MoveOnto | editor/src/commands/distribute.ts:32-36 | A move along the axis by the difference of leading edges takes a box onto a same-sized target. |
| Distribute.MoveOntoBoxes | editor/src/commands/distribute.ts:54-62 | Each object is moved along the axis so that its bounding box lands on its target box. |
| Distribute.DistributeSelection | editor/src/commands/distribute.ts:4-70 | Fewer than three objects: false and nothing moves. Otherwise true, and every object's box lands where the layout puts it, moved along the axis only. |
| Distribute.IsEnabled | editor/src/commands/distribute.ts:72 | Enabled exactly when at least three objects are selected. |
| Distribute.Run | editor/src/commands/distribute.ts:4-70 | Returns true exactly when enabled. When it fails nothing changes, and it never touches the store. With a canvas, the canvas objects at the selected positions become the distributed selection and no other object changes. |
| Distribute.RunMovesTheCanvasObjects | editor/src/commands/distribute.ts:4-70 | After an enabled run, the canvas object at each selected position has the distributed bounding box, and every unselected object is unchanged. |
| TextCommands.Restyle | editor/src/commands/text.ts:42-101 | A text command never changes an object's kind. |
| TextCommands.RestyleTouchesOneProperty | editor/src/commands/text.ts:42-101 | Each command changes only its own property: weight, style, underline or alignment. |
| TextCommands.RestyleFlipsOrSets | editor/src/commands/text.ts:42-101 | Bold, italic and underline flip whether the object shows the property. The alignment commands always leave it showing. |
| TextCommands.ToggleTwiceRestores | editor/src/commands/text.ts:42-68 | Toggling twice restores the object when its weight/style was one of the two values the toggle writes. |
| TextCommands.BoldTwiceNormalises | editor/src/commands/text.ts:43-44 | Any weight other than bold becomes "normal" after two bold toggles. |
| TextCommands.AlignIsIdempotent | editor/src/commands/text.ts:77-101 | Setting an alignment twice is setting it once. |
| TextCommands.ApplyToTexts | editor/src/commands/text.ts:5-18 | Every text object is restyled and every other object is untouched. The result is true exactly when there is a text object. |
| TextCommands.ToggleSwapsAllAndNone | editor/src/commands/text.ts:20-27 | If every text object showed the property, none does afterwards, and vice versa. |
| TextCommands.AlignMakesActive | editor/src/commands/text.ts:77-104 | After an alignment command the command shows as active. |
| TextCommands.ApplyToggleTwiceRestores | editor/src/commands/text.ts:5-18 | Applying a toggle twice restores the selection. |
| TextCommands.Run | editor/src/commands/text.ts:5-18 | Returns true exactly when enabled. When it fails nothing changes, and it never touches the store. With a canvas, the canvas objects at the selected positions become the restyled selection and no other object changes. |
| TextCommands.IsEnabled | editor/src/commands/text.ts:29-34 | Enabled exactly when some selected object is text. |
| TextCommands.IsActive | editor/src/commands/text.ts:20-27 | Active exactly when there is a text object and every one shows the property. |
| TextCommands.ActiveImpliesEnabled | editor/src/commands/text.ts:20-34 | A command that shows as active is enabled. |
| Grouping.SetLocks | editor/src/commands/grouping.ts:50-58 | Every object gets all five lock flags set (or cleared) and nothing else changes. |
| Grouping.LockSelection | editor/src/commands/grouping.ts:47-61 | True exactly when something is selected, with every object's locks set. |
| Grouping.SetLocksIsIdempotent | editor/src/commands/grouping.ts:50-58 | Locking twice is locking once. |
| Grouping.LastLockWins | editor/src/commands/grouping.ts:47-83 | Lock then unlock (or the reverse) is the same as the last one alone. |
| Grouping.UnlockUndoesLock | editor/src/commands/grouping.ts:69-83 | Unlock undoes lock on objects that started unlocked. |
| Grouping.RunLock | editor/src/commands/grouping.ts:47-83 | Lock/unlock return true exactly when something is selected and never touch the store. With a canvas, the canvas objects at the selected positions get their lock flags set (or cleared) and no other object changes. |
| Grouping.HasSelection | editor/src/commands/grouping.ts:7 | At least one object is selected. |
| Grouping.HasMultiple | editor/src/commands/grouping.ts:5 | At least two objects are selected. |
| Grouping.GroupOf | editor/src/commands/grouping.ts:18 | The group built from a selection is a visible "group" object holding exactly those objects, whose box covers every one of theirs. |
| Grouping.Grouped | editor/src/commands/grouping.ts:18-19 | Grouping takes the selected objects out of the canvas's list and adds the group holding them last, as the active object. A to-group call is logged and the viewport is unchanged. |
| Grouping.Group | editor/src/commands/grouping.ts:15-22 | Succeeds exactly when the active object is a multi-selection, and the canvas is then the grouped one. Without a canvas, or otherwise, nothing changes. The store is untouched. |
| Grouping.UngroupEnabled | editor/src/commands/grouping.ts:37-40 | Enabled exactly when the active object is a group. |
| Grouping.Ungrouped | editor/src/commands/grouping.ts:33 | Ungrouping takes the group out of the canvas's list and adds its children after the remaining objects. The active selection then names exactly those positions and reads the children. A to-active-selection call is logged and the viewport is unchanged. |
| Grouping.Ungroup | editor/src/commands/grouping.ts:30-36 | Succeeds exactly when enabled, and the canvas is then the ungrouped one. Otherwise nothing changes. The store is untouched. |
| Grouping.GroupEnabledSucceeds | editor/src/commands/grouping.ts:15-23 | Whenever Group is enabled, its run succeeds. |
| Grouping.GroupSucceedsOnSingletonSelection | editor/src/commands/grouping.ts:15-23 | Group's run also succeeds on a one-object multi-selection, which its enable test rejects. |
| Grouping.GroupThenUngroupEnabled | editor/src/commands/grouping.ts:15-40 | After a successful Group, Ungroup is enabled and Group no longer is. |
| Grouping.UngroupedAfterGrouped | editor/src/commands/grouping.ts:15-36 | On the canvas, the group just made is the active group, and ungrouping it puts the selected objects back, in order, after the objects not selected, and selects exactly them again. |
| Grouping.UngroupedAfterGroupedLogs | editor/src/commands/grouping.ts:15-36 | On the canvas, group then ungroup logs the to-group and to-active-selection calls in that order and leaves the viewport as it was. |
| Grouping.UngroupUndoesGroup | editor/src/commands/grouping.ts:15-36 | Ungroup after Group succeeds and selects the same objects again, in the same order, after the objects that were not selected. Both library calls are logged and the viewport is as it was. |
| Grid.Run | editor/src/commands/grid.ts:10-36 | A grid command returns nothing. It flips its own flag and leaves the other flags, the grid size, the rest of the store and the canvas alone. |
| Grid.IsEnabled | editor/src/commands/grid.ts:25 | Snap is enabled exactly when the grid is shown. The others are always enabled. |
| Grid.RunFlipsOnlyItsIndicator | editor/src/commands/grid.ts:14-37 | Running a grid command flips its own active indicator and no other. |
| Grid.RunTwiceRestores | editor/src/commands/grid.ts:10-36 | Running a grid command twice restores the context. |
| Grid.ToggleGridGatesSnap | editor/src/commands/grid.ts:12-26 | Toggling the grid flips whether snap is enabled and leaves snap's indicator alone. |
| ZoomCommands.CurrentTransform | editor/src/commands/zoom.ts:8-15 | The zoom read from the canvas is its zoom, or 1 when that is 0 (`\|\| 1`). The offsets are the viewport transform's translation, or 0 when the canvas has no transform. |
| ZoomCommands.ViewportSize | editor/src/commands/zoom.ts:31-32 | A zero stored viewport dimension falls back to the canvas's own. |
| ZoomCommands.ApplyTransform | editor/src/commands/zoom.ts:17-25 | The transform is written to the canvas and to the store, reads back from the canvas when its zoom is non-zero, and nothing else on the canvas changes. |
| ZoomCommands.ApplyKeepsViewportSize | editor/src/commands/zoom.ts:17-25 | Applying a transform does not change the viewport size later commands see. |
| ZoomCommands.ApplyWith | editor/src/commands/zoom.ts:27-38 | Without a canvas: false and no change. With one: true and the computed transform applied. |
| ZoomCommands.ZoomByFactor | editor/src/commands/zoom.ts:27-39 | Succeeds exactly when there is a canvas. The canvas and store then agree on the view and nothing else in the store changes. |
| ZoomCommands.ZoomBackOffset | editor/src/utils/zoom.ts:33-35 | Zooming back about the same point restores the offset. |
| ZoomCommands.ZoomByFactorView | editor/src/commands/zoom.ts:27-39 | The new zoom is the clamped factor times the current one. The content point at the viewport centre stays at the centre. |
| ZoomCommands.ZoomThereAndBack | editor/src/utils/zoom.ts:26-41 | Within the limits, zooming to z' and back about the same point restores the transform. |
| ZoomCommands.ZoomInThenOutRestores | editor/src/commands/zoom.ts:104-111 | When the zoom-in does not hit the maximum, zoom in then zoom out restores the view. |
| ZoomCommands.SetExactZoom | editor/src/commands/zoom.ts:41-53 | Succeeds exactly when there is a canvas. Canvas and store agree on the view and nothing else in the store changes. |
| ZoomCommands.SetExactZoomView | editor/src/commands/zoom.ts:41-53 | The zoom becomes the clamped value and the centre stays put. |
| ZoomCommands.ResetView | editor/src/commands/zoom.ts:55-60 | Succeeds exactly when there is a canvas, and sets zoom 1 and no offset on both the canvas and the store. |
| ZoomCommands.IndicatorsAfterCommands | editor/src/commands/zoom.ts:119-130 | After Reset both Reset and Actual Size show as active. After Actual Size, Actual Size does. |
| ZoomCommands.ResetActiveImpliesActualActive | editor/src/commands/zoom.ts:119-130 | Whenever Reset shows as active, so does Actual Size. |
| ZoomCommands.VisibleObjects | editor/src/commands/zoom.ts:65 | Exactly the visible objects. |
| ZoomCommands.UnionBox | editor/src/commands/zoom.ts:70-87 | The union box contains every box, shares a left and a top edge with some box, and is at least 1x1. |
| ZoomCommands.UnionBoxIsTight | editor/src/commands/zoom.ts:70-87 | Unless floored to 1, the union box's right and bottom edges are some box's edges. |
| ZoomCommands.FitToScreen | editor/src/commands/zoom.ts:62-96 | Succeeds exactly when there is a canvas. Canvas and store agree on the view. |
| ZoomCommands.FitToScreenView | editor/src/commands/zoom.ts:62-96 | With nothing visible the view resets. Otherwise the zoom is within the default limits and the visible objects' union box is centred in the viewport. |
| Hotkeys.NormalizeKey | editor/src/utils/hotkeys.ts:17-20 | The normalised key is lower case and is empty only for the empty key. |
| Hotkeys.AsModifier | editor/src/utils/hotkeys.ts:27-28 | A token is read as the modifier with that name, or as none when no modifier has it. |
| Hotkeys.ModifierNameFacts | editor/src/utils/hotkeys.ts:27 | Each modifier name reads back as its modifier and is a clean token. |
| Hotkeys.InsertByRank | editor/src/utils/hotkeys.ts:31-34 | Inserting into a rank-sorted list keeps it sorted and adds exactly the element. |
| Hotkeys.SortByRank | editor/src/utils/hotkeys.ts:31-34 | Sorting by the order ctrl, meta, alt, shift keeps the members and their number and introduces no duplicates. |
| Hotkeys.Canonical | editor/src/utils/hotkeys.ts:30-34 | The canonical modifier list is sorted, duplicate-free and has the same members. |
| Hotkeys.SortedModifiersUnique | editor/src/utils/hotkeys.ts:30-34 | Two sorted duplicate-free modifier lists with the same members are equal. |
| Hotkeys.FinalModifiersAreCanonical | editor/src/utils/hotkeys.ts:30-34 | De-duplicating then sorting gives the canonical list. |
| Hotkeys.CleanAll | editor/src/utils/hotkeys.ts:25 | Each part is trimmed and lower-cased. |
| Hotkeys.ModifiersOf | editor/src/utils/hotkeys.ts:27 | A modifier is collected exactly when its name is among the tokens. |
| Hotkeys.TokensAreClean | editor/src/utils/hotkeys.ts:23-26 | Every token of a combo is non-empty, trimmed, lower case and free of '+'. |
| Hotkeys.TokensOfJoin | editor/src/utils/hotkeys.ts:23-26 | Tokenising a '+'-join of clean tokens gives them back. |
| Hotkeys.LastKeyIsKey | editor/src/utils/hotkeys.ts:28-29 | The key chosen is empty or a clean non-modifier token. |
| Hotkeys.LastKeyIsTheLastKey | editor/src/utils/hotkeys.ts:28-29 | `keys.pop() ?? ''`: with only modifiers the key is empty. Otherwise it is a token of the combo that is not a modifier, and every token after it is a modifier. |
| Hotkeys.NormalizeComboIsCanonical | editor/src/utils/hotkeys.ts:22-37 | A normalised combo is the canonical modifiers followed by the last key, joined by '+'. |
| Hotkeys.TokensOfNormalized | editor/src/utils/hotkeys.ts:22-37 | The tokens of a normalised combo are the canonical modifier names and the key. |
| Hotkeys.NormalizeIsIdempotent | editor/src/utils/hotkeys.ts:22-37 | Normalising twice is normalising once. |
| Hotkeys.EventModifiers | editor/src/utils/hotkeys.ts:40-43 | An event's modifiers are sorted and duplicate-free and never include meta: the meta key counts as ctrl. |
| Hotkeys.EventComboOfPlainKey | editor/src/utils/hotkeys.ts:39-46 | For an ordinary key the event's combo is its modifiers followed by the key. |
| Hotkeys.MetaCombosNeverMatch | editor/src/utils/hotkeys.ts:39-46 | A combo that names meta never matches an ordinary key event. |
| Hotkeys.PlusIsSpecial | editor/src/utils/hotkeys.ts:14-18 | The '+' key normalises to "+". |
| Hotkeys.PlusKeyIsDropped | editor/src/utils/hotkeys.ts:14-18 | Pressing '+' yields the combo of the modifiers alone. The key is lost to the '+' separator. |
| Hotkeys.PlusComboNormalizes | editor/src/utils/hotkeys.ts:22-36 | A combo ending in "++" normalises to its modifiers alone. |
| Hotkeys.DropTrailingEmpties | editor/src/utils/hotkeys.ts:26 | The empty pieces around a '+' key are filtered out. |
| Hotkeys.NormalizeOfTokens | editor/src/utils/hotkeys.ts:22-37 | A combo whose tokens are already canonical normalises to their join. |
| Hotkeys.MetaShiftFExample | editor/src/utils/hotkeys.ts:39-46 | Meta+Shift+F dispatches to the spelling "ctrl+shift+f", which the Fit to Screen command registers. |
| Hotkeys.AddHandler | editor/src/utils/hotkeys.ts:61-63 | The handler is appended to its combo's list, other lists are unchanged, and the listener is attached. |
| Hotkeys.RegisterHotkey | editor/src/utils/hotkeys.ts:59-65 | Registration appends under the normalised combo and attaches the listener. |
| Hotkeys.RegisterThenDispatch | editor/src/utils/hotkeys.ts:48-65 | After registering, an event runs what it ran before plus the new handler exactly when its combo is the registered one. |
| Hotkeys.SpellingsShareHandlers | editor/src/utils/hotkeys.ts:59-63 | Two spellings of one combo share a single handler list, in registration order. |
| Commands.Definition | editor/src/commands/types.ts:45-54 | Each command has its own id, its section and a non-empty hotkey. |
| Commands.AllCommands | editor/src/commands/index.ts:13-21 | The list holds one definition per table entry, in section order. |
| Commands.AllCommandsOnce | editor/src/commands/index.ts:13-21 | No definition appears twice in the list of all commands. |
| Commands.PositionIsIndex | editor/src/commands/index.ts:13-25 | The table position of the identifier at position i is i, so identifiers and positions correspond one to one. |
| Commands.Find | editor/src/commands/index.ts:23-25 | A lookup finds a listed definition with the id, or reports that none has it. |
| Commands.GetCommand | editor/src/commands/index.ts:33-37 | A successful lookup returns the listed definition with that id. |
| Commands.GetCommandNeverFails | editor/src/commands/index.ts:33-37 | Every command id is found, so the unknown-command error cannot occur. |
| Commands.ListCommandsBySection | editor/src/commands/index.ts:29-31 | Every listed command belongs to the section and to the list of all commands. Each is listed once, in registration order. |
| Commands.ListedUnderItsSection | editor/src/commands/index.ts:29-31 | A command is listed under a section exactly when it belongs to it. |
| Commands.RunText | editor/src/commands/text.ts:36-104 | A text command's run returns whether it was enabled. |
| Commands.RunAlign | editor/src/commands/align.ts:52-100 | An align command's run returns whether it was enabled. |
| Commands.RunDistribute | editor/src/commands/distribute.ts:74-107 | A distribute command's run returns whether it was enabled. |
| Commands.RunResize | editor/src/commands/resize.ts:35-60 | A resize command's run returns whether it was enabled. |
| Commands.RunGrouping | editor/src/commands/grouping.ts:9-86 | Group returns its own test's result, which differs from its enable test. The others return their enable test. |
| Commands.RunGrid | editor/src/commands/grid.ts:10-36 | Grid commands return nothing. |
| Commands.RunZoom | editor/src/commands/zoom.ts:98-139 | Zoom commands return whether there is a canvas. |
| Commands.ZoomActionsNeedACanvas | editor/src/commands/zoom.ts:27-96 | Every zoom action succeeds exactly when there is a canvas. |
| Commands.Run | editor/src/commands/index.ts:45 | No command's run touches the operations panel state. |
| Commands.ExecuteCommand | editor/src/commands/index.ts:39-49 | Returns true exactly when the command succeeds. A disabled command changes nothing. On success the section's last command is recorded and nothing else in the panel changes. On failure the panel is untouched. |
| Commands.TextCommandsSucceedWhenAvailable | editor/src/commands/index.ts:39-49 | A text command succeeds exactly when a text object is selected. |
| Commands.AlignCommandsSucceedWhenAvailable | editor/src/commands/index.ts:39-49 | An align command succeeds exactly when two or more objects are selected. |
| Commands.DistributeCommandsSucceedWhenAvailable | editor/src/commands/index.ts:39-49 | A distribute command succeeds exactly when three or more objects are selected. |
| Commands.ResizeCommandsSucceedWhenAvailable | editor/src/commands/index.ts:39-49 | A resize command succeeds exactly when two or more objects are selected. |
| Commands.GroupingCommandsSucceedWhenAvailable | editor/src/commands/index.ts:39-49 | Group needs two or more objects, Ungroup an active group, and Lock/Unlock one or more objects. |
| Commands.GridCommandsSucceedWhenAvailable | editor/src/commands/index.ts:39-49 | Grid toggle and guides always succeed. Snap succeeds exactly when the grid is shown. |
| Commands.ZoomCommandsSucceedWhenAvailable | editor/src/commands/index.ts:39-49 | A zoom command succeeds exactly when there is a canvas. |
| Commands.ExecutesExactlyWhenAvailable | editor/src/commands/index.ts:39-49 | For every command, execution returns true exactly in its availability condition. |
| Commands.RegisterOne | editor/src/commands/index.ts:56-64 | Registering one command appends its id under its combo (if it has one) and changes no other list. |
| Commands.RegisterEachHandlers | editor/src/commands/index.ts:56-64 | After the loop, each combo's list holds the ids of the commands bound to it, in list order. |
| Commands.RegisterEachAttaches | editor/src/commands/index.ts:56-64 | The loop leaves the listener attached once anything is registered. |
| Commands.InitializeCommandHotkeys | editor/src/commands/index.ts:51-65 | The first call registers every command and sets the bound flag. Later calls change nothing. |
| Commands.InitializeBindsEveryHotkey | editor/src/commands/index.ts:51-65 | After initialisation a key event runs exactly the commands whose normalised hotkey is its combo, in list order, and initialising again changes nothing. |
| Commands.RunHandlers | editor/src/utils/hotkeys.ts:51-56 | No handler: nothing happens. A single handler executes its command. |
| Commands.RunHandlersAppend | editor/src/utils/hotkeys.ts:55 | Handlers sharing a combo run in registration order: running one more handler executes its command on the context the earlier ones left. The combined report is true when any of them executed. |
| Commands.KeyDownRunsItsCommand | editor/src/commands/index.ts:58-63 | An event bound to one command executes exactly that command. |
| Elements.OrDefault | editor/src/elements/LedIndicator.ts:76-77 | `value \|\| fallback`: a missing or empty value falls back. A non-empty fallback gives a non-empty result. |
| Elements.OrDefaultIsStable | editor/src/elements/NumberDisplay.ts:86-87 | Falling back again on a resolved value changes nothing. |
| Elements.StyleLabel | editor/src/elements/ToggleButton.ts:106-111 | The label takes the caption and size. Its font family and weight fall back to the defaults and are never empty. |
| Elements.Look | editor/src/elements/ToggleButton.ts:102-104 | The knob is at +12 exactly when on and -12 otherwise. The track is blue exactly when on and grey exactly when off. |
| Elements.LookShowsTheState | editor/src/elements/ToggleButton.ts:102-116 | Two switches look alike exactly when they are in the same position. |
| EditorToggle.ToggleState | editor/src/elements/ToggleButton.ts:92-96 | The switch flips with the clock untouched, and a `state` output carries the new position. |
| EditorToggle.ToggleStateTwiceRestores | editor/src/elements/ToggleButton.ts:92-96 | Two toggles restore the switch and emit opposite values. |
| EditorToggle.Click | editor/src/elements/ToggleButton.ts:74-86 | A mouse-up is taken exactly in runtime mode, 250 ms or more after the last taken click. A suppressed one changes and emits nothing. A taken one records the time, flips the switch and emits one `state` output. |
| EditorToggle.FirstClickWaitsForTheClock | editor/src/elements/ToggleButton.ts:20-21 | The switch starts off, and its first click counts only once the clock reads 250 or more. |
| EditorToggle.AcceptedClicksAreSpaced | editor/src/elements/ToggleButton.ts:80-85 | Over any run of mouse-ups, taken clicks are pairwise at least 250 ms apart and 250 ms after the last click taken before. |
| EditorToggle.ClicksReportWhatWasTaken | editor/src/elements/ToggleButton.ts:74-96 | A run emits one output per taken click, carrying alternating positions. It ends flipped exactly when an odd number were taken and remembers the last one taken. |
| EditorToggle.DesignModeIgnoresClicks | editor/src/elements/ToggleButton.ts:75 | Outside runtime mode no click changes or emits anything. |
| EditorToggle.Draw | editor/src/elements/ToggleButton.ts:102-124 | The drawing is the look of the position and the label with font fallbacks. |
| ViewerToggle.ToggleState | viewer/src/elements/ToggleButton.ts:79-82 | The switch flips with the clock untouched. |
| ViewerToggle.ToggleStateTwiceRestores | viewer/src/elements/ToggleButton.ts:79-82 | Two toggles restore the switch. |
| ViewerToggle.Click | viewer/src/elements/ToggleButton.ts:65-77 | Every click records its time. It flips the switch exactly when 250 ms or more after the previous click. |
| ViewerToggle.BurstTogglesAtMostOnce | viewer/src/elements/ToggleButton.ts:67-74 | A burst of clicks, each within 250 ms of the one before, toggles at most once however long it lasts. |
| ViewerToggle.EditorAndViewerDisagree | viewer/src/elements/ToggleButton.ts:65-77 | Three clicks, each less than 250 ms after the one before but the third 250 ms or more after the first: the editor takes two and ends unchanged, while the viewer takes one and ends flipped. |
| ViewerToggle.Draw | viewer/src/elements/ToggleButton.ts:88-108 | The viewer draws the same knob and track, with the label copied without font fallbacks. |
| LedIndicator.SetState | editor/src/elements/LedIndicator.ts:83-86 | The lamp is lit exactly when the input is true (`!!value`). |
| LedIndicator.SetStateForgetsThePast | editor/src/elements/LedIndicator.ts:83-86 | The input alone decides the lamp, so setting twice is setting once. |
| LedIndicator.Click | editor/src/elements/LedIndicator.ts:52-61 | Outside runtime nothing happens. In runtime the lamp flips and one `value` output carries the new state. |
| LedIndicator.TwoClicksRestore | editor/src/elements/LedIndicator.ts:52-61 | Two runtime clicks restore the lamp and emit opposite values. |
| LedIndicator.Draw | editor/src/elements/LedIndicator.ts:64-81 | The fill is the on or off colour and the label gets its font fallbacks. |
| LedIndicator.FillShowsTheState | editor/src/elements/LedIndicator.ts:71 | With distinct colours a click always changes the fill, and after an input the fill is the on colour exactly when the input was true. |
| NumberText.DisplayText | editor/src/elements/NumberDisplay.ts:103-111 | A non-finite value shows "--". A finite one shows the formatted number, cut to its first 10 characters when longer. Never more than 10 characters. |
| NumberText.OnlyTheFirstTenCharactersShow | editor/src/elements/NumberDisplay.ts:108-110 | Two values whose formatted text agrees on the first 10 characters display alike. |
| NumberText.LastGiven | editor/src/elements/NumberDisplay.ts:100-101 | The last value that was not null or undefined, if any. |
| NumberText.LastGivenStep | editor/src/elements/NumberDisplay.ts:101 | A missing value does not displace the last given one. |
| EditorNumberDisplay.Merge | editor/src/elements/NumberDisplay.ts:27-35 | Each given property wins over its default. |
| EditorNumberDisplay.Create | editor/src/elements/NumberDisplay.ts:54-77 | A new display shows "--" in the merged font size, family and weight. The label shows the merged caption in the merged label size. The label shares the readout's font family and weight, without `\|\|` fallbacks. |
| EditorNumberDisplay.UpdateFromProps | editor/src/elements/NumberDisplay.ts:83-98 | A refresh keeps the shown text, takes the font size, and gives the readout and label their font fallbacks. |
| EditorNumberDisplay.SetState | editor/src/elements/NumberDisplay.ts:100-119 | A missing value changes nothing. A given one sets the display text and re-applies the font fallbacks, keeping size and label. |
| EditorNumberDisplay.SetStateKeepsTheStyle | editor/src/elements/NumberDisplay.ts:83-119 | After a refresh, a value changes only the text, and refresh and value commute. |
| EditorNumberDisplay.LaterValueWins | editor/src/elements/NumberDisplay.ts:100-119 | A given value overrides whatever an earlier one set. |
| EditorNumberDisplay.ShowAll | editor/src/elements/NumberDisplay.ts:100-119 | A stream of values leaves the display as the last given value alone would, keeps it when none is given, and never shows more than 10 characters. |
| ViewerNumberDisplay.Create | viewer/src/elements/NumberDisplay.ts:51-70 | A new display shows "--" with the given size and label. |
| ViewerNumberDisplay.UpdateFromProps | viewer/src/elements/NumberDisplay.ts:76-87 | A refresh keeps the text and takes size and label. |
| ViewerNumberDisplay.SetState | viewer/src/elements/NumberDisplay.ts:89-104 | A missing value changes nothing. A given one changes only the text. |
| ViewerNumberDisplay.DisplayAgreesWithTheEditor | viewer/src/elements/NumberDisplay.ts:89-104 | Refresh and value commute, and the viewer shows the same text as the editor for the same precision. |
| TextMixin.Merge | editor/src/elements/mixins/TextMixin.ts:13-27 | Each given property wins over its default. |
| TextMixin.AsPatch | editor/src/elements/mixins/TextMixin.ts:27 | A complete property set given as a patch merges to itself. |
| TextMixin.Create | editor/src/elements/mixins/TextMixin.ts:26-38 | A created text shows the merged label, has every style field present and is anchored top-left. |
| TextMixin.Patched | editor/src/elements/mixins/TextMixin.ts:46-52 | A given property replaces the field and a missing one keeps it. |
| TextMixin.Update | editor/src/elements/mixins/TextMixin.ts:43-55 | Each field changes exactly when its property is given, and the anchor is untouched. |
| TextMixin.Extract | editor/src/elements/mixins/TextMixin.ts:60-70 | Missing style fields read as defaults. A missing text reads as "". |
| TextMixin.ExtractCreate | editor/src/elements/mixins/TextMixin.ts:26-70 | Reading back a created text gives the defaults overlaid with the given properties. |
| TextMixin.UpdateWithNothing | editor/src/elements/mixins/TextMixin.ts:43-55 | An empty patch is a no-op. |
| TextMixin.Overlay | editor/src/elements/mixins/TextMixin.ts:43-55 | Laying one patch over another merges like the later patch over the earlier result. |
| TextMixin.UpdatesCompose | editor/src/elements/mixins/TextMixin.ts:43-55 | Two updates are one update with the overlaid patch, so repeating an update changes nothing. |
| TextMixin.CreateIsUpdateOfDefaults | editor/src/elements/mixins/TextMixin.ts:26-55 | Creating from a patch is updating a default text with it. |
| TextMixin.ExtractAfterUpdate | editor/src/elements/mixins/TextMixin.ts:43-70 | After an update, reading back agrees with the patch where it gives a property and with the earlier reading elsewhere. |
| TextMixin.RoundTrips | editor/src/elements/mixins/TextMixin.ts:26-70 | Create then extract round-trips a complete set, and create, update, extract equals merging the overlaid patches. |
| TextMixin.MissingTextIsEmpty | editor/src/elements/mixins/TextMixin.ts:62 | A text with no content reads back as "", not the default "Label". |

## Distribute is not idempotent

A re-run of the same align or distribute command on an arranged selection is expected to move nothing further. That holds for align (`Align.AlignIsIdempotent`). It does not hold for the `center` distribute strategy as written in editor/src/commands/distribute.ts:10-37.

The reason is that the second run sorts again by leading edge. A wide box centred between narrow ones can end up with the smallest leading edge. The second run then treats it as the first box and moves the others. `Distribute.CentersIsNotIdempotent` exhibits three such boxes. The model follows the code.

## Left out

- Canvas-library effects are not modelled. The calls `setCoords`, `requestRenderAll`, `fire('object:modified')`, the switch knob's `animate` and `canvas.fire('element:output')` become either nothing or an `Output` value the widget function returns. `scaleToWidth` and `scaleToHeight` are recorded as requests in the canvas log, without their effect on geometry. `toGroup` and `toActiveSelection` are also logged, and their effect on the object list is modelled as the canvas library documents it: the selected objects are replaced by one group added last, and a group is replaced by its children added last. The canvas library itself is not part of this model.
- Grouping.GroupOf: the group's box is the hull of its members' boxes, and the children keep their canvas coordinates. The library's conversion of children to group-relative coordinates is not modelled.
- A canvas object whose own type is "activeSelection" is not modelled. The active multi-selection is its own variant of the active object and never sits in the object list.
- Bounding boxes are given per object (`getBoundingRect(true, true)`). An object's position is its bounding box's position, so `obj.left ?? 0` with an undefined `left` is not modelled.
- All numbers are mathematical reals. IEEE rounding, NaN and Infinity are not modelled, nor the `Infinity` seeds of the fit-to-screen reduce over an empty list, which the code never reaches. `Number.isFinite` is an abstract `Finite`/`NonFinite` split, and `toFixed` is a function parameter. A precision outside 0..100, which makes `toFixed` throw, is not modelled.
- Persistence is not modelled. `loadOperationsState` (localStorage and JSON parsing) becomes the `operations` argument of `CanvasStore.Initial`, and `persistOperationsState` is omitted. `serializeView` is a plain read.
- The global keydown listener and `Date.now()` are outside the model. Key events are values, and the clock reading is a `now` parameter. `preventDefault`/`stopPropagation` on the event are not modelled. `KeyDownRunsItsCommand` states which command executes, not whether the default is prevented.
- `getRuntimeContext`/`useCanvas` become the explicit `Context` argument.
- Commands.HandleHotkey: the registered handler executes its command. It carries no contract of its own; `Commands.KeyDownRunsItsCommand` states it.
- Strings.Lower: lower-cases ASCII letters only, because Unicode case folding is not modelled.
- Strings.Trim: strips a fixed set of white-space characters (ASCII white space, NBSP, BOM, line and paragraph separators), not every Unicode space separator.
- Hotkeys.NormalizeKey: `SPECIAL_KEYS[key]` is a plain map lookup. Object-prototype names such as "constructor" are not modelled.
- Pairwise uniqueness of the 31 hotkeys is not proved. `InitializeBindsEveryHotkey` states dispatch through `BoundCommands` instead, which is exact whether or not two commands share a combo.
- `COMMAND_MAP` keeps the last definition for a repeated id while `Find` returns the first. Ids are unique, so the two agree.
- The sidebar caption of each command (`label` in the source) is modelled as `Caption`. Section titles are not modelled.
- Idempotence of the `space` distribute strategy is not proved. A negative gap (overlapping boxes) can also reorder the boxes on a second run.
- The widget base class (BaseElement), its input/output binding, and the other widgets (NumberInput, LineElement, ImageElement) are not part of this model.
- EditorNumberDisplay.Merge: `{...defaults, ...props}` with a key explicitly set to `undefined` is treated like a missing key.
- TextMixin.Merge: `{...DEFAULT_TEXT_PROPS, ...props}` with a key explicitly set to `undefined` is treated like a missing key. In the source that key would be `undefined` after the spread, not the default.
- LedIndicator.SetState: `!!value` is modelled over an optional boolean only, not over other truthy or falsy values.
- ViewerToggle.Click: the viewer has no runtime-mode guard, and the model follows that.
