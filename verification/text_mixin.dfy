/**
 * The text helpers the editor's widgets share
 * (editor/src/elements/mixins/TextMixin.ts): build a text object from
 * partial properties over the defaults, patch one with only the properties
 * given, and read the properties back. The fabric text object is a record
 * whose style fields may be missing.
 */
module TextMixin {
  import opened Wrappers

  datatype Weight = NormalWeight | Bold
  datatype Slant = Upright | Italic
  datatype Alignment = AlignLeft | AlignCenter | AlignRight

  /** A complete set of text properties. */
  datatype TextProps = TextProps(
    caption: string,
    fontSize: real,
    fontFamily: string,
    fontWeight: Weight,
    fontStyle: Slant,
    textAlign: Alignment,
    fill: string)

  const DefaultTextProps: TextProps :=
    TextProps("Label", 14.0, "Arial", NormalWeight, Upright, AlignLeft, "#000000")

  /** `Partial<TextProps>`: any property may be left undefined. */
  datatype TextPatch = TextPatch(
    caption: Option<string>,
    fontSize: Option<real>,
    fontFamily: Option<string>,
    fontWeight: Option<Weight>,
    fontStyle: Option<Slant>,
    textAlign: Option<Alignment>,
    fill: Option<string>)

  const NoChanges: TextPatch := TextPatch(None, None, None, None, None, None, None)

  /**
   * A fabric text object as far as these helpers see it. Every field may be
   * missing; `originX`/`originY` are set at creation and never read back.
   */
  datatype TextObject = TextObject(
    text: Option<string>,
    fontSize: Option<real>,
    fontFamily: Option<string>,
    fontWeight: Option<Weight>,
    fontStyle: Option<Slant>,
    textAlign: Option<Alignment>,
    fill: Option<string>,
    originX: string,
    originY: string)

  /** `{ ...DEFAULT_TEXT_PROPS, ...p }`: each given property wins over its default. */
  function Merge(p: TextPatch): (r: TextProps)
    ensures p.caption.Some? ==> r.caption == p.caption.value
    ensures p.caption.None? ==> r.caption == DefaultTextProps.caption
    ensures r.fontSize == p.fontSize.GetOr(DefaultTextProps.fontSize)
    ensures r.fontFamily == p.fontFamily.GetOr(DefaultTextProps.fontFamily)
    ensures r.fontWeight == p.fontWeight.GetOr(DefaultTextProps.fontWeight)
    ensures r.fontStyle == p.fontStyle.GetOr(DefaultTextProps.fontStyle)
    ensures r.textAlign == p.textAlign.GetOr(DefaultTextProps.textAlign)
    ensures r.fill == p.fill.GetOr(DefaultTextProps.fill)
  {
    TextProps(
      p.caption.GetOr(DefaultTextProps.caption),
      p.fontSize.GetOr(DefaultTextProps.fontSize),
      p.fontFamily.GetOr(DefaultTextProps.fontFamily),
      p.fontWeight.GetOr(DefaultTextProps.fontWeight),
      p.fontStyle.GetOr(DefaultTextProps.fontStyle),
      p.textAlign.GetOr(DefaultTextProps.textAlign),
      p.fill.GetOr(DefaultTextProps.fill))
  }

  /** Every property of a complete set, as a patch that gives them all. */
  function AsPatch(t: TextProps): (p: TextPatch)
    ensures Merge(p) == t
  {
    TextPatch(Some(t.caption), Some(t.fontSize), Some(t.fontFamily), Some(t.fontWeight),
      Some(t.fontStyle), Some(t.textAlign), Some(t.fill))
  }

  /**
   * `createTextElement(p)`: the label becomes the text, every style field is
   * present and holds the given value or its default, anchored top-left.
   */
  function Create(p: TextPatch): (e: TextObject)
    ensures e.text == Some(Merge(p).caption)
    ensures e.fontSize.Some? && e.fontFamily.Some? && e.fontWeight.Some?
    ensures e.fontStyle.Some? && e.textAlign.Some? && e.fill.Some?
    ensures e.originX == "left" && e.originY == "top"
  {
    var m := Merge(p);
    TextObject(Some(m.caption), Some(m.fontSize), Some(m.fontFamily), Some(m.fontWeight),
      Some(m.fontStyle), Some(m.textAlign), Some(m.fill), "left", "top")
  }

  /** A field after a patch: the given value if there is one, else what was there. */
  function Patched<T>(given: Option<T>, current: Option<T>): (r: Option<T>)
    ensures given.Some? ==> r == given
    ensures given.None? ==> r == current
  {
    if given.Some? then given else current
  }

  /**
   * `updateTextElement(e, p)`: each field changes exactly when its property
   * is given, and then to the given value; the anchor is untouched.
   */
  function Update(e: TextObject, p: TextPatch): (r: TextObject)
    ensures r.text == Patched(p.caption, e.text)
    ensures r.fontSize == Patched(p.fontSize, e.fontSize)
    ensures r.fontFamily == Patched(p.fontFamily, e.fontFamily)
    ensures r.fontWeight == Patched(p.fontWeight, e.fontWeight)
    ensures r.fontStyle == Patched(p.fontStyle, e.fontStyle)
    ensures r.textAlign == Patched(p.textAlign, e.textAlign)
    ensures r.fill == Patched(p.fill, e.fill)
    ensures r.originX == e.originX && r.originY == e.originY
  {
    e.(text := Patched(p.caption, e.text),
       fontSize := Patched(p.fontSize, e.fontSize),
       fontFamily := Patched(p.fontFamily, e.fontFamily),
       fontWeight := Patched(p.fontWeight, e.fontWeight),
       fontStyle := Patched(p.fontStyle, e.fontStyle),
       textAlign := Patched(p.textAlign, e.textAlign),
       fill := Patched(p.fill, e.fill))
  }

  /**
   * `extractTextProps(e)`: missing style fields read as their defaults, but
   * a missing text reads as the empty string rather than the default label.
   */
  function Extract(e: TextObject): (t: TextProps)
    ensures t.caption == e.text.GetOr("")
    ensures t.fontSize == e.fontSize.GetOr(DefaultTextProps.fontSize)
    ensures t.fontFamily == e.fontFamily.GetOr(DefaultTextProps.fontFamily)
    ensures t.fontWeight == e.fontWeight.GetOr(DefaultTextProps.fontWeight)
    ensures t.fontStyle == e.fontStyle.GetOr(DefaultTextProps.fontStyle)
    ensures t.textAlign == e.textAlign.GetOr(DefaultTextProps.textAlign)
    ensures t.fill == e.fill.GetOr(DefaultTextProps.fill)
  {
    TextProps(
      e.text.GetOr(""),
      e.fontSize.GetOr(DefaultTextProps.fontSize),
      e.fontFamily.GetOr(DefaultTextProps.fontFamily),
      e.fontWeight.GetOr(DefaultTextProps.fontWeight),
      e.fontStyle.GetOr(DefaultTextProps.fontStyle),
      e.textAlign.GetOr(DefaultTextProps.textAlign),
      e.fill.GetOr(DefaultTextProps.fill))
  }

  /** Reading back what was created gives the defaults overlaid with the given properties. */
  lemma ExtractCreate(p: TextPatch)
    ensures Extract(Create(p)) == Merge(p)
  {
  }

  /** An empty patch leaves the object exactly as it was. */
  lemma UpdateWithNothing(e: TextObject)
    ensures Update(e, NoChanges) == e
  {
  }

  /** `{ ...p, ...q }`: q's given properties win, p's fill the rest. */
  function Overlay(p: TextPatch, q: TextPatch): (r: TextPatch)
    ensures Merge(r) == Merge(p).(caption := q.caption.GetOr(Merge(p).caption),
                                 fontSize := q.fontSize.GetOr(Merge(p).fontSize),
                                 fontFamily := q.fontFamily.GetOr(Merge(p).fontFamily),
                                 fontWeight := q.fontWeight.GetOr(Merge(p).fontWeight),
                                 fontStyle := q.fontStyle.GetOr(Merge(p).fontStyle),
                                 textAlign := q.textAlign.GetOr(Merge(p).textAlign),
                                 fill := q.fill.GetOr(Merge(p).fill))
  {
    TextPatch(Patched(q.caption, p.caption), Patched(q.fontSize, p.fontSize),
      Patched(q.fontFamily, p.fontFamily), Patched(q.fontWeight, p.fontWeight),
      Patched(q.fontStyle, p.fontStyle), Patched(q.textAlign, p.textAlign),
      Patched(q.fill, p.fill))
  }

  /**
   * Two updates are one update with the later patch laid over the earlier,
   * so updating twice with the same patch is updating once.
   */
  lemma UpdatesCompose(e: TextObject, p: TextPatch, q: TextPatch)
    ensures Update(Update(e, p), q) == Update(e, Overlay(p, q))
    ensures Update(Update(e, p), p) == Update(e, p)
  {
  }

  /** Creating from a patch is updating a default object with it. */
  lemma CreateIsUpdateOfDefaults(p: TextPatch)
    ensures Create(p) == Update(Create(NoChanges), p)
  {
    var d, m := Create(NoChanges), Merge(p);
    assert d == TextObject(Some("Label"), Some(14.0), Some("Arial"), Some(NormalWeight),
      Some(Upright), Some(AlignLeft), Some("#000000"), "left", "top");
  }

  /**
   * After an update, reading back agrees with the patch on every property it
   * gives, and with the earlier reading on every property it leaves out.
   */
  lemma ExtractAfterUpdate(e: TextObject, p: TextPatch)
    ensures var before, after := Extract(e), Extract(Update(e, p));
      && after.caption == p.caption.GetOr(before.caption)
      && after.fontSize == p.fontSize.GetOr(before.fontSize)
      && after.fontFamily == p.fontFamily.GetOr(before.fontFamily)
      && after.fontWeight == p.fontWeight.GetOr(before.fontWeight)
      && after.fontStyle == p.fontStyle.GetOr(before.fontStyle)
      && after.textAlign == p.textAlign.GetOr(before.textAlign)
      && after.fill == p.fill.GetOr(before.fill)
  {
  }

  /**
   * Create and extract round-trip a complete set of properties, and an
   * object created from an overlay reads back as updating the first
   * creation with the second patch.
   */
  lemma RoundTrips(t: TextProps, p: TextPatch, q: TextPatch)
    ensures Extract(Create(AsPatch(t))) == t
    ensures Extract(Update(Create(p), q)) == Merge(Overlay(p, q))
  {
    ExtractCreate(AsPatch(t));
    assert Update(Create(p), q) == Create(Overlay(p, q)) by {
      CreateIsUpdateOfDefaults(p);
      CreateIsUpdateOfDefaults(Overlay(p, q));
      UpdatesCompose(Create(NoChanges), p, q);
    }
    ExtractCreate(Overlay(p, q));
  }

  /** An object with no text reads back with an empty label, not the default one. */
  lemma MissingTextIsEmpty(e: TextObject)
    requires e.text.None?
    ensures Extract(e).caption == "" != DefaultTextProps.caption
  {
  }
}
