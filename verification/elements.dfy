/**
 * What the HMI widgets share: the `element:output` event a control fires,
 * the label style the editor's widgets re-apply with `||` fallbacks, and the
 * slide switch both toggle buttons draw. Time is the millisecond clock
 * reading the browser would give `Date.now()`, passed in as an integer.
 */
module Elements {
  import opened Wrappers

  /** An `element:output` event: the output's name and the boolean it carries. */
  datatype Output = Output(name: string, value: bool)

  const DefaultFontFamily: string := "Arial, sans-serif"
  const DefaultFontWeight: string := "normal"

  /**
   * `s || fallback` on an optional string property: the property wins only
   * when it is present and non-empty, since the empty string is falsy.
   */
  function OrDefault(s: Option<string>, fallback: string): (r: string)
    ensures s.Some? && s.value != "" ==> r == s.value
    ensures s.None? || s.value == "" ==> r == fallback
    ensures fallback != "" ==> r != ""
  {
    if s.Some? && s.value != "" then s.value else fallback
  }

  /** Feeding a resolved value back in resolves to itself. */
  lemma OrDefaultIsStable(s: Option<string>, fallback: string)
    ensures OrDefault(Some(OrDefault(s, fallback)), fallback) == OrDefault(s, fallback)
  {
  }

  /** The label properties a widget keeps; the font fields may be absent. */
  datatype LabelProps = LabelProps(
    caption: string,
    labelFontSize: real,
    fontFamily: Option<string>,
    fontWeight: Option<string>)

  /** What the label text object is set to. */
  datatype LabelStyle = LabelStyle(text: string, fontSize: real, fontFamily: string, fontWeight: string)

  /**
   * The label as the editor widgets set it on every refresh: text and size
   * copied, font family and weight falling back to the defaults.
   */
  function StyleLabel(p: LabelProps): (s: LabelStyle)
    ensures s.text == p.caption && s.fontSize == p.labelFontSize
    ensures s.fontFamily == OrDefault(p.fontFamily, DefaultFontFamily)
    ensures s.fontWeight == OrDefault(p.fontWeight, DefaultFontWeight)
    ensures s.fontFamily != "" && s.fontWeight != ""
  {
    LabelStyle(p.caption, p.labelFontSize,
      OrDefault(p.fontFamily, DefaultFontFamily),
      OrDefault(p.fontWeight, DefaultFontWeight))
  }

  /**
   * A slide switch: whether it is on, and when the last click that counted
   * for the debounce happened. Both toggle buttons start off with the clock
   * reading 0.
   */
  datatype Switch = Switch(on: bool, lastClick: int)

  const InitialSwitch: Switch := Switch(false, 0)

  /** Clicks closer than this to the last one are suppressed. */
  const DebounceMs: int := 250

  /** Whether a click at `now` is far enough from the last one to count. */
  predicate ClearOfDebounce(s: Switch, now: int) {
    now - s.lastClick >= DebounceMs
  }

  /** The switch's drawing: where the knob slides to and the track colour. */
  datatype SwitchLook = SwitchLook(knobX: int, track: string)

  const OnColor: string := "#3b82f6"
  const OffColor: string := "#d1d5db"

  /** The knob sits right of centre on the blue track exactly when the switch is on. */
  function Look(on: bool): (v: SwitchLook)
    ensures v.knobX == 12 || v.knobX == -12
    ensures v.knobX > 0 <==> on
    ensures v.track == OnColor <==> on
    ensures v.track == OffColor <==> !on
  {
    if on then SwitchLook(12, OnColor) else SwitchLook(-12, OffColor)
  }

  /** Two switches look alike exactly when they are in the same position. */
  lemma LookShowsTheState(a: bool, b: bool)
    ensures Look(a) == Look(b) <==> a == b
  {
  }
}
