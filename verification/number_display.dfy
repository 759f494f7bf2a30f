/**
 * The rule both number displays use to turn an incoming value into text:
 * `--` for a number that is not finite, otherwise the value written with a
 * fixed number of decimals and cut to its first ten characters.
 */
module NumberText {
  import opened Wrappers

  /** A JavaScript number as the display tells it apart: finite, or NaN and the infinities. */
  datatype Num = Finite(x: real) | NonFinite

  const Placeholder: string := "--"
  const MaxChars: nat := 10

  /**
   * The text for a value. `toFixed(x, precision)` stands for
   * `Number(x).toFixed(precision)`, whose decimal rounding is not modelled.
   */
  function DisplayText(v: Num, precision: int, toFixed: (real, int) -> string): (r: string)
    ensures |r| <= MaxChars
    ensures v.NonFinite? ==> r == Placeholder
    ensures v.Finite? ==> r <= toFixed(v.x, precision)
    ensures v.Finite? && |toFixed(v.x, precision)| <= MaxChars ==> r == toFixed(v.x, precision)
    ensures v.Finite? && |toFixed(v.x, precision)| > MaxChars ==> |r| == MaxChars
  {
    match v
    case NonFinite => Placeholder
    case Finite(x) =>
      var s := toFixed(x, precision);
      if |s| > MaxChars then s[..MaxChars] else s
  }

  /**
   * Only the first ten characters of the fixed-point text matter: two
   * finite values whose texts agree that far show the same, however far
   * apart the values are.
   */
  lemma OnlyTheFirstTenCharactersShow(a: real, b: real, precision: int, toFixed: (real, int) -> string)
    requires |toFixed(a, precision)| >= MaxChars && |toFixed(b, precision)| >= MaxChars
    requires toFixed(a, precision)[..MaxChars] == toFixed(b, precision)[..MaxChars]
    ensures DisplayText(Finite(a), precision, toFixed) == DisplayText(Finite(b), precision, toFixed)
  {
    var sa, sb := toFixed(a, precision), toFixed(b, precision);
    assert DisplayText(Finite(a), precision, toFixed) == sa[..MaxChars] by {
      if |sa| == MaxChars { assert sa[..MaxChars] == sa; }
    }
    assert DisplayText(Finite(b), precision, toFixed) == sb[..MaxChars] by {
      if |sb| == MaxChars { assert sb[..MaxChars] == sb; }
    }
  }

  /** The last value that was actually given: `null` and `undefined` inputs are skipped. */
  function LastGiven<T>(values: seq<Option<T>>): (r: Option<T>)
    ensures r.Some? <==> exists i :: 0 <= i < |values| && values[i].Some?
    ensures r.Some? ==> exists i :: 0 <= i < |values| && values[i] == r
    decreases |values|
  {
    if |values| == 0 then None
    else if values[|values| - 1].Some? then values[|values| - 1]
    else
      var r := LastGiven(values[..|values| - 1]);
      assert forall i :: 0 <= i < |values| - 1 ==> values[..|values| - 1][i] == values[i];
      r
  }

  /** Appending a value makes it the last given one; appending an absent one changes nothing. */
  lemma LastGivenStep<T>(values: seq<Option<T>>, v: Option<T>)
    ensures LastGiven(values + [v]) == if v.Some? then v else LastGiven(values)
  {
    assert (values + [v])[..|values|] == values;
  }
}

/**
 * The editor's number display (editor/src/elements/NumberDisplay.ts). The
 * readout starts as `--`; `setState` rewrites it and re-applies the font
 * family and weight so that they are not lost, and `updateFromProps`
 * restyles the readout and the label without touching the text.
 */
module EditorNumberDisplay {
  import opened Wrappers
  import opened Elements
  import opened NumberText

  datatype NumProps = NumProps(fontSize: real, precision: int, text: LabelProps)

  const Defaults: NumProps :=
    NumProps(24.0, 2, LabelProps("Number Display", 14.0, Some(DefaultFontFamily), Some(DefaultFontWeight)))

  /** Constructor properties: any of them may be left out. */
  datatype NumPropsPatch = NumPropsPatch(
    fontSize: Option<real>,
    precision: Option<int>,
    caption: Option<string>,
    labelFontSize: Option<real>,
    fontFamily: Option<string>,
    fontWeight: Option<string>)

  /** `{ ...defaults, ...props }`: each given property wins over its default. */
  function Merge(patch: NumPropsPatch): (p: NumProps)
    ensures p.fontSize == patch.fontSize.GetOr(Defaults.fontSize)
    ensures p.precision == patch.precision.GetOr(Defaults.precision)
    ensures p.text.caption == patch.caption.GetOr(Defaults.text.caption)
    ensures p.text.labelFontSize == patch.labelFontSize.GetOr(Defaults.text.labelFontSize)
    ensures p.text.fontFamily == Some(patch.fontFamily.GetOr(DefaultFontFamily))
    ensures p.text.fontWeight == Some(patch.fontWeight.GetOr(DefaultFontWeight))
  {
    NumProps(
      patch.fontSize.GetOr(Defaults.fontSize),
      patch.precision.GetOr(Defaults.precision),
      LabelProps(
        patch.caption.GetOr(Defaults.text.caption),
        patch.labelFontSize.GetOr(Defaults.text.labelFontSize),
        Some(patch.fontFamily.GetOr(DefaultFontFamily)),
        Some(patch.fontWeight.GetOr(DefaultFontWeight))))
  }

  /** The readout text object. */
  datatype Readout = Readout(text: string, fontSize: real, fontFamily: string, fontWeight: string)

  datatype Display = Display(readout: Readout, caption: LabelStyle)

  /**
   * The constructor: the readout shows `--`; the readout and the label take
   * the merged font family and weight as given, with no fallback for an
   * empty string.
   */
  function Create(patch: NumPropsPatch): (d: Display)
    ensures d.readout.text == Placeholder
    ensures d.readout.fontSize == Merge(patch).fontSize
    ensures d.readout.fontFamily == patch.fontFamily.GetOr(DefaultFontFamily)
    ensures Some(d.readout.fontFamily) == Merge(patch).text.fontFamily
    ensures Some(d.readout.fontWeight) == Merge(patch).text.fontWeight
    ensures d.caption.text == Merge(patch).text.caption
    ensures d.caption.fontSize == Merge(patch).text.labelFontSize
    ensures d.caption.fontFamily == d.readout.fontFamily && d.caption.fontWeight == d.readout.fontWeight
  {
    var p := Merge(patch);
    var family := patch.fontFamily.GetOr(DefaultFontFamily);
    var weight := patch.fontWeight.GetOr(DefaultFontWeight);
    Display(
      Readout(Placeholder, p.fontSize, family, weight),
      LabelStyle(p.text.caption, p.text.labelFontSize, family, weight))
  }

  /** `updateFromProps`: restyle the readout and the label; the text stays. */
  function UpdateFromProps(d: Display, p: NumProps): (r: Display)
    ensures r.readout.text == d.readout.text
    ensures r.readout.fontSize == p.fontSize
    ensures r.readout.fontFamily == OrDefault(p.text.fontFamily, DefaultFontFamily)
    ensures r.readout.fontWeight == OrDefault(p.text.fontWeight, DefaultFontWeight)
    ensures r.caption == StyleLabel(p.text)
  {
    Display(
      d.readout.(fontSize := p.fontSize,
                 fontFamily := OrDefault(p.text.fontFamily, DefaultFontFamily),
                 fontWeight := OrDefault(p.text.fontWeight, DefaultFontWeight)),
      StyleLabel(p.text))
  }

  /**
   * `setState({ value })`: an absent value (`null` or `undefined`) leaves the
   * display exactly as it was; a given one sets the readout's text by the
   * display rule at the current precision and re-applies the font fallbacks,
   * leaving the readout's size and the label alone.
   */
  function SetState(d: Display, p: NumProps, value: Option<Num>, toFixed: (real, int) -> string): (r: Display)
    ensures value.None? ==> r == d
    ensures value.Some? ==> r.readout.text == DisplayText(value.value, p.precision, toFixed)
    ensures value.Some? ==> r.readout.fontFamily == OrDefault(p.text.fontFamily, DefaultFontFamily)
    ensures value.Some? ==> r.readout.fontWeight == OrDefault(p.text.fontWeight, DefaultFontWeight)
    ensures r.readout.fontSize == d.readout.fontSize && r.caption == d.caption
  {
    match value
    case None => d
    case Some(v) =>
      d.(readout := d.readout.(
        text := DisplayText(v, p.precision, toFixed),
        fontFamily := OrDefault(p.text.fontFamily, DefaultFontFamily),
        fontWeight := OrDefault(p.text.fontWeight, DefaultFontWeight)))
  }

  /**
   * `setState` keeps the fonts `updateFromProps` chose, and the two commute
   * under the same properties: one sets the text, the other the styling.
   */
  lemma SetStateKeepsTheStyle(d: Display, p: NumProps, value: Option<Num>, toFixed: (real, int) -> string)
    ensures SetState(UpdateFromProps(d, p), p, value, toFixed).readout.(text := "")
         == UpdateFromProps(d, p).readout.(text := "")
    ensures SetState(UpdateFromProps(d, p), p, value, toFixed) == UpdateFromProps(SetState(d, p, value, toFixed), p)
  {
  }

  /** A later value overwrites an earlier one completely. */
  lemma LaterValueWins(d: Display, p: NumProps, a: Option<Num>, b: Num, toFixed: (real, int) -> string)
    ensures SetState(SetState(d, p, a, toFixed), p, Some(b), toFixed) == SetState(d, p, Some(b), toFixed)
  {
  }

  /**
   * Feeds a stream of inputs to the display. The result is the display as
   * the last value actually given left it, or the display untouched when
   * every input was absent; the text never grows past ten characters.
   */
  method ShowAll(d: Display, p: NumProps, values: seq<Option<Num>>, toFixed: (real, int) -> string)
    returns (r: Display)
    ensures r == SetState(d, p, LastGiven(values), toFixed)
    ensures (forall i :: 0 <= i < |values| ==> values[i].None?) ==> r == d
    ensures |d.readout.text| <= MaxChars ==> |r.readout.text| <= MaxChars
  {
    r := d;
    for i := 0 to |values|
      invariant r == SetState(d, p, LastGiven(values[..i]), toFixed)
    {
      assert values[..i + 1] == values[..i] + [values[i]];
      LastGivenStep(values[..i], values[i]);
      if values[i].Some? {
        LaterValueWins(d, p, LastGiven(values[..i]), values[i].value, toFixed);
      }
      r := SetState(r, p, values[i], toFixed);
    }
    assert values[..|values|] == values;
  }
}

/**
 * The viewer's number display (viewer/src/elements/NumberDisplay.ts): the
 * same text rule, with no font fallbacks. `setState` touches only the text
 * and `updateFromProps` only the sizes and the label.
 */
module ViewerNumberDisplay {
  import opened Wrappers
  import opened NumberText
  import EditorNumberDisplay

  datatype NumProps = NumProps(fontSize: real, precision: int, caption: string, labelFontSize: real)

  const Defaults: NumProps := NumProps(24.0, 2, "Number Display", 14.0)

  datatype Display = Display(text: string, fontSize: real, caption: string, labelFontSize: real)

  /** The constructor: the readout shows `--`. */
  function Create(p: NumProps): (d: Display)
    ensures d.text == Placeholder
    ensures d.fontSize == p.fontSize && d.caption == p.caption && d.labelFontSize == p.labelFontSize
  {
    Display(Placeholder, p.fontSize, p.caption, p.labelFontSize)
  }

  /** `updateFromProps`: the sizes and the label follow the properties; the text stays. */
  function UpdateFromProps(d: Display, p: NumProps): (r: Display)
    ensures r.text == d.text
    ensures r.fontSize == p.fontSize && r.caption == p.caption && r.labelFontSize == p.labelFontSize
  {
    Display(d.text, p.fontSize, p.caption, p.labelFontSize)
  }

  /** `setState({ value })`: an absent value changes nothing; a given one sets only the text. */
  function SetState(d: Display, p: NumProps, value: Option<Num>, toFixed: (real, int) -> string): (r: Display)
    ensures value.None? ==> r == d
    ensures value.Some? ==> r == d.(text := DisplayText(value.value, p.precision, toFixed))
  {
    match value
    case None => d
    case Some(v) => d.(text := DisplayText(v, p.precision, toFixed))
  }

  /**
   * The two operations touch disjoint parts, so they commute whatever
   * properties each is given; and the viewer shows the same text as the
   * editor for the same value and precision.
   */
  lemma DisplayAgreesWithTheEditor(d: Display, e: EditorNumberDisplay.Display, p: NumProps,
                                   q: NumProps, ep: EditorNumberDisplay.NumProps, v: Num,
                                   toFixed: (real, int) -> string)
    requires ep.precision == p.precision
    ensures SetState(UpdateFromProps(d, q), p, Some(v), toFixed) == UpdateFromProps(SetState(d, p, Some(v), toFixed), q)
    ensures SetState(d, p, Some(v), toFixed).text == EditorNumberDisplay.SetState(e, ep, Some(v), toFixed).readout.text
  {
  }
}
