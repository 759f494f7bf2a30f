/**
 * The LED indicator (editor/src/elements/LedIndicator.ts): a lamp that
 * starts off. Its `value` input sets it without echoing anything, and in
 * runtime mode a click flips it and fires the `value` output with the new
 * state.
 */
module LedIndicator {
  import opened Wrappers
  import opened Elements

  datatype LedProps = LedProps(onColor: string, offColor: string, text: LabelProps)

  const DefaultProps: LedProps :=
    LedProps("#65d665", "#d1d5db", LabelProps("Led", 14.0, Some(DefaultFontFamily), Some(DefaultFontWeight)))

  /** Whether the lamp is lit. */
  datatype Led = Led(on: bool)

  const InitialLed: Led := Led(false)

  /**
   * `setState({ value })`: the lamp takes the truthiness of the input, an
   * absent value counting as false, whatever it showed before; nothing is
   * emitted.
   */
  function SetState(l: Led, value: Option<bool>): (r: Led)
    ensures r.on <==> value == Some(true)
  {
    Led(value.Some? && value.value)
  }

  /** The input decides the lamp alone: what it showed before is forgotten, so setting twice is setting once. */
  lemma SetStateForgetsThePast(a: Led, b: Led, value: Option<bool>)
    ensures SetState(a, value) == SetState(b, value)
    ensures SetState(SetState(a, value), value) == SetState(a, value)
  {
  }

  /**
   * The mouse-up handler: outside runtime mode nothing changes and nothing
   * is emitted; in runtime mode the lamp flips and one `value` output
   * carries the new state.
   */
  function Click(l: Led, runtime: bool): (r: (Led, seq<Output>))
    ensures !runtime ==> r == (l, [])
    ensures runtime ==> r.0.on == !l.on && r.1 == [Output("value", r.0.on)]
  {
    if !runtime then (l, [])
    else
      var t := Led(!l.on);
      (t, [Output("value", t.on)])
  }

  /** Two runtime clicks restore the lamp, and their outputs carry opposite values. */
  lemma TwoClicksRestore(l: Led)
    ensures Click(Click(l, true).0, true).0 == l
    ensures Click(Click(l, true).0, true).1[0].value != Click(l, true).1[0].value
  {
  }

  /** What the lamp draws: its circle's fill and its label. */
  datatype LedLook = LedLook(fill: string, caption: LabelStyle)

  /** `updateFromProps`: the circle takes the on or off colour, the label its font fallbacks. */
  function Draw(l: Led, p: LedProps): (v: LedLook)
    ensures v.fill == (if l.on then p.onColor else p.offColor)
    ensures v.caption == StyleLabel(p.text)
  {
    LedLook(if l.on then p.onColor else p.offColor, StyleLabel(p.text))
  }

  /**
   * With distinct colours the fill tells the state: a runtime click always
   * changes it, and the fill after an input is the on colour exactly when
   * the input was true.
   */
  lemma FillShowsTheState(l: Led, p: LedProps, value: Option<bool>)
    requires p.onColor != p.offColor
    ensures Draw(Click(l, true).0, p).fill != Draw(l, p).fill
    ensures Draw(SetState(l, value), p).fill == p.onColor <==> value == Some(true)
  {
  }
}
