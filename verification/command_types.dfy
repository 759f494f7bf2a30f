/** The closed sets of operation sections and command identifiers of editor/src/commands/types.ts. */
module CommandTypes {
  import opened Wrappers

  datatype SectionId = Text | Align | Distribute | Resize | Grouping | Grid | Zoom

  datatype CommandId =
    | TextBold | TextItalic | TextUnderline | TextAlignLeft | TextAlignCenter | TextAlignRight
    | AlignLeft | AlignCenter | AlignRight | AlignTop | AlignMiddle | AlignBottom
    | DistributeHorizontal | DistributeVertical | DistributeSpaceHorizontal | DistributeSpaceVertical
    | ResizeMatchWidth | ResizeMatchHeight | ResizeMatchBoth
    | GroupingGroup | GroupingUngroup | GroupingLock | GroupingUnlock
    | GridToggle | GridSnap | GridGuides
    | ZoomIn | ZoomOut | ZoomReset | ZoomActual | ZoomFit

  /** The identifier's string form, as it appears in the registry and in error messages. */
  function CommandName(id: CommandId): string {
    match id
    case TextBold => "text:bold"
    case TextItalic => "text:italic"
    case TextUnderline => "text:underline"
    case TextAlignLeft => "text:align-left"
    case TextAlignCenter => "text:align-center"
    case TextAlignRight => "text:align-right"
    case AlignLeft => "align:left"
    case AlignCenter => "align:center"
    case AlignRight => "align:right"
    case AlignTop => "align:top"
    case AlignMiddle => "align:middle"
    case AlignBottom => "align:bottom"
    case DistributeHorizontal => "distribute:horizontal"
    case DistributeVertical => "distribute:vertical"
    case DistributeSpaceHorizontal => "distribute:space-horizontal"
    case DistributeSpaceVertical => "distribute:space-vertical"
    case ResizeMatchWidth => "resize:match-width"
    case ResizeMatchHeight => "resize:match-height"
    case ResizeMatchBoth => "resize:match-both"
    case GroupingGroup => "grouping:group"
    case GroupingUngroup => "grouping:ungroup"
    case GroupingLock => "grouping:lock"
    case GroupingUnlock => "grouping:unlock"
    case GridToggle => "grid:toggle"
    case GridSnap => "grid:snap"
    case GridGuides => "grid:guides"
    case ZoomIn => "zoom:in"
    case ZoomOut => "zoom:out"
    case ZoomReset => "zoom:reset"
    case ZoomActual => "zoom:actual"
    case ZoomFit => "zoom:fit"
  }

  /** The static part of a command definition; its behaviour is dispatched on `id`. */
  datatype CommandDefinition = CommandDefinition(id: CommandId, section: SectionId, caption: string, hotkey: Option<string>)

  /** The sections in the order the sidebar lists them. */
  const SECTION_ORDER: seq<SectionId> := [Text, Align, Distribute, Resize, Grouping, Grid, Zoom]
}
