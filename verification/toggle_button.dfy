/**
 * The editor's slide switch (editor/src/elements/ToggleButton.ts). A
 * mouse-up counts only in runtime mode and only 250 ms or more after the
 * last click that counted; a suppressed click leaves everything, the clock
 * reading included, as it was. A click that counts flips the switch and
 * fires the `state` output with the new position.
 */
module EditorToggle {
  import opened Elements

  /** `toggleState`: flip whatever the timing, then emit `state` with the new position. */
  function ToggleState(s: Switch): (r: (Switch, Output))
    ensures r.0.on == !s.on && r.0.lastClick == s.lastClick
    ensures r.1 == Output("state", r.0.on)
  {
    var t := s.(on := !s.on);
    (t, Output("state", t.on))
  }

  /** Toggling twice restores the switch, and the two emitted values differ. */
  lemma ToggleStateTwiceRestores(s: Switch)
    ensures ToggleState(ToggleState(s).0).0 == s
    ensures ToggleState(ToggleState(s).0).1.value != ToggleState(s).1.value
  {
  }

  /** Whether a mouse-up at `now` is taken. */
  predicate Accepts(s: Switch, runtime: bool, now: int) {
    runtime && ClearOfDebounce(s, now)
  }

  /**
   * The mouse-up handler: outside runtime mode, or within the debounce, the
   * switch is untouched and nothing is emitted; otherwise the click time is
   * recorded and the switch toggles, emitting exactly one output.
   */
  function Click(s: Switch, runtime: bool, now: int): (r: (Switch, seq<Output>))
    ensures |r.1| <= 1
    ensures r.1 != [] <==> Accepts(s, runtime, now)
    ensures !Accepts(s, runtime, now) ==> r.0 == s
    ensures Accepts(s, runtime, now) ==> r.0 == Switch(!s.on, now) && r.1 == [Output("state", !s.on)]
  {
    if !runtime then (s, [])
    else if now - s.lastClick < DebounceMs then (s, [])
    else
      var (t, out) := ToggleState(s.(lastClick := now));
      (t, [out])
  }

  /** With the clock starting at 0, a click is taken only once the clock has reached 250. */
  lemma FirstClickWaitsForTheClock(now: int)
    ensures Accepts(InitialSwitch, true, now) <==> now >= DebounceMs
    ensures !InitialSwitch.on
  {
  }

  /** Mouse-ups at the given clock readings, in order: the final switch and every output. */
  function Clicks(s: Switch, runtime: bool, times: seq<int>): (r: (Switch, seq<Output>))
    decreases |times|
  {
    if |times| == 0 then (s, [])
    else
      var (t, out) := Click(s, runtime, times[0]);
      var (u, outs) := Clicks(t, runtime, times[1..]);
      (u, out + outs)
  }

  /** The clock readings of the mouse-ups that were taken, in order. */
  function AcceptedTimes(s: Switch, runtime: bool, times: seq<int>): seq<int>
    decreases |times|
  {
    if |times| == 0 then []
    else
      var taken := if Accepts(s, runtime, times[0]) then [times[0]] else [];
      taken + AcceptedTimes(Click(s, runtime, times[0]).0, runtime, times[1..])
  }

  /** Every reading is at least the debounce after `from`, and after every earlier reading. */
  predicate Spaced(ts: seq<int>, from: int) {
    && (forall k :: 0 <= k < |ts| ==> ts[k] - from >= DebounceMs)
    && (forall i, j :: 0 <= i < j < |ts| ==> ts[j] - ts[i] >= DebounceMs)
  }

  /**
   * Any two clicks that are taken lie at least 250 ms apart, and the first
   * lies 250 ms or more after the last click taken before the run, whatever
   * the clock does in between.
   */
  lemma {:induction false} AcceptedClicksAreSpaced(s: Switch, runtime: bool, times: seq<int>)
    ensures Spaced(AcceptedTimes(s, runtime, times), s.lastClick)
    decreases |times|
  {
    if |times| > 0 {
      var t := Click(s, runtime, times[0]).0;
      var rest := AcceptedTimes(t, runtime, times[1..]);
      AcceptedClicksAreSpaced(t, runtime, times[1..]);
      if Accepts(s, runtime, times[0]) {
        var acc := [times[0]] + rest;
        assert AcceptedTimes(s, runtime, times) == acc;
        assert t.lastClick == times[0];
        forall i, j | 0 <= i < j < |acc|
          ensures acc[j] - acc[i] >= DebounceMs
        {
          if i > 0 {
            assert acc[i] == rest[i - 1] && acc[j] == rest[j - 1];
          } else {
            assert acc[j] == rest[j - 1];
          }
        }
      } else {
        assert t == s;
        assert AcceptedTimes(s, runtime, times) == rest;
      }
    }
  }

  /**
   * A run of mouse-ups emits one `state` output per click taken, carrying
   * the alternating positions the switch passes through; the switch ends
   * flipped exactly when an odd number were taken, and remembers the last
   * one taken.
   */
  lemma {:induction false} ClicksReportWhatWasTaken(s: Switch, runtime: bool, times: seq<int>)
    ensures var (u, outs) := Clicks(s, runtime, times);
      var acc := AcceptedTimes(s, runtime, times);
      && |outs| == |acc|
      && (forall k :: 0 <= k < |outs| ==> outs[k] == Output("state", s.on != (k % 2 == 0)))
      && (u.on <==> (s.on != (|acc| % 2 == 1)))
      && u.lastClick == (if |acc| == 0 then s.lastClick else acc[|acc| - 1])
    decreases |times|
  {
    if |times| > 0 {
      var (t, out) := Click(s, runtime, times[0]);
      var (u, outs) := Clicks(t, runtime, times[1..]);
      var rest := AcceptedTimes(t, runtime, times[1..]);
      ClicksReportWhatWasTaken(t, runtime, times[1..]);
      assert Clicks(s, runtime, times) == (u, out + outs);
      if Accepts(s, runtime, times[0]) {
        assert AcceptedTimes(s, runtime, times) == [times[0]] + rest;
        var all := out + outs;
        forall k | 0 <= k < |all|
          ensures all[k] == Output("state", s.on != (k % 2 == 0))
        {
          if k > 0 {
            assert all[k] == outs[k - 1];
          }
        }
      } else {
        assert t == s && out == [];
        assert AcceptedTimes(s, runtime, times) == rest;
        assert out + outs == outs;
      }
    }
  }

  /** Outside runtime mode no mouse-up does anything. */
  lemma {:induction false} DesignModeIgnoresClicks(s: Switch, times: seq<int>)
    ensures Clicks(s, false, times) == (s, [])
    ensures AcceptedTimes(s, false, times) == []
    decreases |times|
  {
    if |times| > 0 {
      DesignModeIgnoresClicks(s, times[1..]);
      var empty: seq<Output> := [];
      assert Click(s, false, times[0]) == (s, empty);
      assert Clicks(s, false, times).0 == s;
      assert Clicks(s, false, times).1 == empty + empty;
      assert empty + empty == empty;
    }
  }

  /** What the switch draws: the knob and track for its position, and the label with font fallbacks. */
  function Draw(s: Switch, p: LabelProps): (d: (SwitchLook, LabelStyle))
    ensures d.0 == Look(s.on) && d.1 == StyleLabel(p)
  {
    (Look(s.on), StyleLabel(p))
  }
}

/**
 * The viewer's slide switch (viewer/src/elements/ToggleButton.ts). There is
 * no runtime guard and no output. Unlike the editor's switch, a suppressed
 * click still records its time, so a burst of rapid clicks keeps pushing
 * the debounce window forward.
 */
module ViewerToggle {
  import opened Elements
  import EditorToggle

  /** `toggleState`: flip whatever the timing; nothing is emitted. */
  function ToggleState(s: Switch): (r: Switch)
    ensures r.on == !s.on && r.lastClick == s.lastClick
  {
    s.(on := !s.on)
  }

  /** Toggling twice restores the switch. */
  lemma ToggleStateTwiceRestores(s: Switch)
    ensures ToggleState(ToggleState(s)) == s
  {
  }

  /**
   * `handleClick`: every click records its time; it flips the switch
   * exactly when it comes 250 ms or more after the previous click.
   */
  function Click(s: Switch, now: int): (r: Switch)
    ensures r.lastClick == now
    ensures r.on != s.on <==> ClearOfDebounce(s, now)
  {
    if now - s.lastClick < DebounceMs then s.(lastClick := now)
    else ToggleState(s.(lastClick := now))
  }

  /** Clicks at the given clock readings, in order. */
  function Clicks(s: Switch, times: seq<int>): (r: Switch)
    decreases |times|
  {
    if |times| == 0 then s else Clicks(Click(s, times[0]), times[1..])
  }

  /** Each click comes less than 250 ms after the one before it. */
  predicate Burst(times: seq<int>) {
    forall i :: 0 <= i < |times| - 1 ==> times[i + 1] - times[i] < DebounceMs
  }

  /**
   * In a burst only the first click can toggle: the burst leaves the switch
   * as its first click did, with the last click's time recorded.
   */
  lemma {:induction false} BurstTogglesAtMostOnce(s: Switch, times: seq<int>)
    requires |times| >= 1 && Burst(times)
    ensures Clicks(s, times) == Click(s, times[0]).(lastClick := times[|times| - 1])
    decreases |times|
  {
    var t := Click(s, times[0]);
    if |times| > 1 {
      var rest := times[1..];
      assert Burst(rest) by {
        forall i | 0 <= i < |rest| - 1
          ensures rest[i + 1] - rest[i] < DebounceMs
        {
          assert rest[i] == times[i + 1] && rest[i + 1] == times[i + 2];
        }
      }
      BurstTogglesAtMostOnce(t, rest);
      assert Click(t, rest[0]) == t.(lastClick := rest[0]) by {
        assert rest[0] - t.lastClick == times[1] - times[0];
      }
      assert rest[|rest| - 1] == times[|times| - 1];
    }
  }

  /**
   * Where the two switches part ways: three clicks, each within the
   * debounce of the one before but the third 250 ms or more after the
   * first. The editor takes the first and third and ends where it started;
   * the viewer takes only the first and ends flipped.
   */
  lemma EditorAndViewerDisagree(s: Switch, t0: int, t1: int, t2: int)
    requires ClearOfDebounce(s, t0)
    requires t1 - t0 < DebounceMs && t2 - t1 < DebounceMs && t2 - t0 >= DebounceMs
    ensures Clicks(s, [t0, t1, t2]).on == !s.on
    ensures EditorToggle.Clicks(s, true, [t0, t1, t2]).0.on == s.on
    ensures |EditorToggle.Clicks(s, true, [t0, t1, t2]).1| == 2
  {
    var times := [t0, t1, t2];
    BurstTogglesAtMostOnce(s, times);
    EditorToggle.ClicksReportWhatWasTaken(s, true, times);
    var a := Switch(!s.on, t0);
    assert EditorToggle.Click(s, true, t0).0 == a;
    assert EditorToggle.Click(a, true, t1).0 == a;
    assert EditorToggle.AcceptedTimes(s, true, times) == [t0, t2] by {
      assert times[1..] == [t1, t2] && times[1..][1..] == [t2];
      assert EditorToggle.AcceptedTimes(a, true, [t2]) == [t2];
      assert EditorToggle.AcceptedTimes(a, true, [t1, t2]) == [t2];
    }
  }

  /** What the switch draws; the viewer's label has no font fallbacks. */
  function Draw(s: Switch, caption: string, labelFontSize: real): (d: (SwitchLook, string, real))
    ensures d.0 == Look(s.on) && d.1 == caption && d.2 == labelFontSize
  {
    (Look(s.on), caption, labelFontSize)
  }
}
