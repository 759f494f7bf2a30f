/**
 * The text commands (editor/src/commands/text.ts): toggle bold, italic and
 * underline, and set the alignment, on every text object in the selection.
 * A command does nothing, and reports false, when the selection holds no text.
 */
module TextCommands {
  import opened Wrappers
  import opened Scene
  import opened CommandUtils

  datatype TextCommand = Bold | Italic | Underline | AlignLeft | AlignCenter | AlignRight

  /** The alignment value an align command sets. */
  function AlignValue(cmd: TextCommand): string
    requires cmd.AlignLeft? || cmd.AlignCenter? || cmd.AlignRight?
  {
    match cmd
    case AlignLeft => "left"
    case AlignCenter => "center"
    case AlignRight => "right"
  }

  /** What a command does to one text object; every other property is kept. */
  function Restyle(cmd: TextCommand, o: CanvasObject): (r: CanvasObject)
    ensures r.kind == o.kind
  {
    match cmd
    case Bold => o.(fontWeight := if o.fontWeight == "bold" then "normal" else "bold")
    case Italic => o.(fontStyle := if o.fontStyle == "italic" then "normal" else "italic")
    case Underline => o.(underline := !o.underline)
    case _ => o.(textAlign := AlignValue(cmd))
  }

  /** The test the command's active indicator applies to each text object. */
  predicate Shows(cmd: TextCommand, o: CanvasObject) {
    match cmd
    case Bold => o.fontWeight == "bold"
    case Italic => o.fontStyle == "italic"
    case Underline => o.underline
    case _ => o.textAlign == AlignValue(cmd)
  }

  /** Only the property the command is about changes. */
  lemma RestyleTouchesOneProperty(cmd: TextCommand, o: CanvasObject)
    ensures var r := Restyle(cmd, o);
      && (cmd.Bold? ==> r.(fontWeight := o.fontWeight) == o)
      && (cmd.Italic? ==> r.(fontStyle := o.fontStyle) == o)
      && (cmd.Underline? ==> r.(underline := o.underline) == o)
      && (!cmd.Bold? && !cmd.Italic? && !cmd.Underline? ==> r.(textAlign := o.textAlign) == o)
  {
  }

  /**
   * The toggles flip the indicator for each object; the align commands turn
   * it on.
   */
  lemma RestyleFlipsOrSets(cmd: TextCommand, o: CanvasObject)
    ensures cmd.Bold? || cmd.Italic? || cmd.Underline? ==> (Shows(cmd, Restyle(cmd, o)) <==> !Shows(cmd, o))
    ensures !cmd.Bold? && !cmd.Italic? && !cmd.Underline? ==> Shows(cmd, Restyle(cmd, o))
  {
  }

  /**
   * A toggle applied twice restores the object, provided the property held
   * one of the two values the toggle writes (a weight of, say, "600" comes
   * back as "normal").
   */
  lemma ToggleTwiceRestores(cmd: TextCommand, o: CanvasObject)
    requires cmd.Bold? || cmd.Italic? || cmd.Underline?
    requires cmd.Bold? ==> o.fontWeight == "bold" || o.fontWeight == "normal"
    requires cmd.Italic? ==> o.fontStyle == "italic" || o.fontStyle == "normal"
    ensures Restyle(cmd, Restyle(cmd, o)) == o
  {
  }

  /** A weight other than bold and normal is not restored by toggling bold twice. */
  lemma BoldTwiceNormalises(o: CanvasObject)
    requires o.fontWeight != "bold"
    ensures Restyle(Bold, Restyle(Bold, o)).fontWeight == "normal"
  {
  }

  /** The align commands are idempotent. */
  lemma AlignIsIdempotent(cmd: TextCommand, o: CanvasObject)
    requires !cmd.Bold? && !cmd.Italic? && !cmd.Underline?
    ensures Restyle(cmd, Restyle(cmd, o)) == Restyle(cmd, o)
  {
  }

  /** Whether a list of objects holds a text object (`objects.some(isTextObject)`). */
  predicate HasText(objs: seq<CanvasObject>) {
    exists i :: 0 <= i < |objs| && IsTextObject(objs[i])
  }

  /**
   * `applyToTexts`: every text object is restyled, every other object is
   * left as it is; with no text object nothing changes and the result is false.
   */
  function ApplyToTexts(objs: seq<CanvasObject>, cmd: TextCommand): (e: SelectionEdit)
    ensures e.requests == []
    ensures e.ok <==> HasText(objs)
    ensures |e.objects| == |objs|
    ensures forall i :: 0 <= i < |objs| ==>
      e.objects[i] == if IsTextObject(objs[i]) then Restyle(cmd, objs[i]) else objs[i]
  {
    var out := seq(|objs|, i requires 0 <= i < |objs| =>
      if IsTextObject(objs[i]) then Restyle(cmd, objs[i]) else objs[i]);
    if HasText(objs) then SelectionEdit(true, out, [])
    else
      assert out == objs;
      SelectionEdit(false, objs, [])
  }

  /** `everyText`: there is a text object and every text object passes the test. */
  predicate EveryTextShows(objs: seq<CanvasObject>, cmd: TextCommand) {
    HasText(objs) && forall i :: 0 <= i < |objs| && IsTextObject(objs[i]) ==> Shows(cmd, objs[i])
  }

  /** No text object passes the test. */
  predicate NoTextShows(objs: seq<CanvasObject>, cmd: TextCommand) {
    forall i :: 0 <= i < |objs| && IsTextObject(objs[i]) ==> !Shows(cmd, objs[i])
  }

  /**
   * After a toggle, a selection whose texts all showed the style shows it
   * on none of them, and one whose texts showed it on none shows it on all.
   */
  lemma ToggleSwapsAllAndNone(objs: seq<CanvasObject>, cmd: TextCommand)
    requires cmd.Bold? || cmd.Italic? || cmd.Underline?
    ensures var after := ApplyToTexts(objs, cmd).objects;
      && (EveryTextShows(objs, cmd) ==> NoTextShows(after, cmd))
      && (HasText(objs) && NoTextShows(objs, cmd) ==> EveryTextShows(after, cmd))
  {
    var after := ApplyToTexts(objs, cmd).objects;
    forall i | 0 <= i < |objs|
      ensures IsTextObject(after[i]) <==> IsTextObject(objs[i])
      ensures IsTextObject(objs[i]) ==> (Shows(cmd, after[i]) <==> !Shows(cmd, objs[i]))
    {
      RestyleFlipsOrSets(cmd, objs[i]);
    }
    if HasText(objs) {
      var i :| 0 <= i < |objs| && IsTextObject(objs[i]);
      assert IsTextObject(after[i]);
    }
  }

  /** After an align command every text object shows that alignment. */
  lemma AlignMakesActive(objs: seq<CanvasObject>, cmd: TextCommand)
    requires !cmd.Bold? && !cmd.Italic? && !cmd.Underline?
    requires HasText(objs)
    ensures EveryTextShows(ApplyToTexts(objs, cmd).objects, cmd)
  {
    var after := ApplyToTexts(objs, cmd).objects;
    var i :| 0 <= i < |objs| && IsTextObject(objs[i]);
    assert IsTextObject(after[i]);
  }

  /** Applying a toggle twice restores every object whose style held one of the two toggled values. */
  lemma ApplyToggleTwiceRestores(objs: seq<CanvasObject>, cmd: TextCommand)
    requires cmd.Bold? || cmd.Italic? || cmd.Underline?
    requires forall o :: o in objs && IsTextObject(o) ==>
      (cmd.Bold? ==> o.fontWeight == "bold" || o.fontWeight == "normal")
      && (cmd.Italic? ==> o.fontStyle == "italic" || o.fontStyle == "normal")
    ensures ApplyToTexts(ApplyToTexts(objs, cmd).objects, cmd).objects == objs
  {
    var once := ApplyToTexts(objs, cmd).objects;
    var twice := ApplyToTexts(once, cmd).objects;
    forall i | 0 <= i < |objs| ensures twice[i] == objs[i] {
      if IsTextObject(objs[i]) {
        assert objs[i] in objs;
        ToggleTwiceRestores(cmd, objs[i]);
      }
    }
  }

  /**
   * Running a text command: false without a canvas or without text in the
   * selection; otherwise the selected text objects are restyled where the
   * canvas holds them, and nothing else changes.
   */
  function Run(ctx: Context, cmd: TextCommand): (out: (bool, Context))
    ensures out.0 <==> IsEnabled(ctx)
    ensures !out.0 ==> out.1 == ctx
    ensures out.1.store == ctx.store
    ensures ctx.canvas.Some? ==>
      var c := ctx.canvas.value;
      && out.1.canvas.Some? && out.1.canvas.value.requests == c.requests
      && EditedSelection(c, out.1.canvas.value, ApplyToTexts(GetActiveSelection(c).objects, cmd).objects)
  {
    var out := RunOnSelection(ctx, objs => ApplyToTexts(objs, cmd));
    if ctx.canvas.Some? && !out.0 then
      var c := ctx.canvas.value;
      assert c.requests + [] == c.requests;
      out
    else out
  }

  /** `hasTextSelection`: the text commands are enabled when the selection holds a text object. */
  function IsEnabled(ctx: Context): (b: bool)
    ensures b <==> ctx.canvas.Some? && HasText(GetActiveSelection(ctx.canvas.value).objects)
  {
    match ctx.canvas
    case None => false
    case Some(c) => HasText(GetActiveSelection(c).objects)
  }

  /** A command's active indicator: a canvas, text in the selection, and every text shows the style. */
  function IsActive(ctx: Context, cmd: TextCommand): (b: bool)
    ensures b <==> ctx.canvas.Some? && EveryTextShows(GetActiveSelection(ctx.canvas.value).objects, cmd)
  {
    match ctx.canvas
    case None => false
    case Some(c) => EveryTextShows(GetActiveSelection(c).objects, cmd)
  }

  /** An active indicator is only ever shown on an enabled command. */
  lemma ActiveImpliesEnabled(ctx: Context, cmd: TextCommand)
    ensures IsActive(ctx, cmd) ==> IsEnabled(ctx)
  {
  }
}
