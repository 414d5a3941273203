/**
 SliderControl: a range of values cut into whole steps, the knob that shows one of them, and the
 stored VALUE it reads and writes. Doubles are modelled as reals.
 */
module Slider {
  import opened Common

  // ---------------------------------------------------------------- rounding

  /** std::lround: to the nearest integer, halves away from zero. */
  function Lround(x: real): int {
    if x >= 0.0 then (x + 0.5).Floor else -((-x + 0.5).Floor)
  }

  function Clamp(x: real, lo: real, hi: real): real
    requires lo <= hi
  {
    if x < lo then lo else if hi < x then hi else x
  }

  function ClampInt(x: int, lo: int, hi: int): int
    requires lo <= hi
  {
    if x < lo then lo else if hi < x then hi else x
  }

  function Min(x: real, y: real): real { if y < x then y else x }

  function Max(x: real, y: real): real { if x < y then y else x }

  // ---------------------------------------------------------------- the scale

  /** What ApplyRange derives from the stored bounds. */
  datatype Scale = Scale(min: real, max: real, step: real, count: int)

  predicate ValidScale(c: Scale) {
    c.min <= c.max && c.step > 0.0 && c.count >= 1
  }

  function ScaleOf(low: real, high: real, step: real): (c: Scale)
    ensures ValidScale(c)
  {
    var min, max := Min(low, high), Max(low, high);
    var size := if step > 0.0 then step else 1.0;
    var n := Lround((max - min) / size);
    Scale(min, max, size, if n < 1 then 1 else n)
  }

  predicate Derived(c: Scale) {
    ValidScale(c) && c == ScaleOf(c.min, c.max, c.step)
  }

  function ToIndex(c: Scale, value: real): int
    requires ValidScale(c)
  {
    ClampInt(Lround((value - c.min) / c.step), 0, c.count)
  }

  function ToValue(c: Scale, index: int): real
    requires ValidScale(c)
  {
    Clamp(c.min + index as real * c.step, c.min, c.max)
  }

  lemma ScaleIsDerived(low: real, high: real, step: real)
    ensures Derived(ScaleOf(low, high, step))
  {
  }

  /**
   The scale of any three numbers: from the lesser bound to the greater, in steps of the size given or of 1,
   and as many of them as come nearest to the length of the range, but one at least.
   */
  lemma ScaleCovers(low: real, high: real, step: real)
    ensures
      var c := ScaleOf(low, high, step);
      && ((c.min == low && c.max == high) || (c.min == high && c.max == low)) && c.min <= c.max
      && (step > 0.0 ==> c.step == step) && (step <= 0.0 ==> c.step == 1.0)
      && (c.count as real - 0.5 <= (c.max - c.min) / c.step < c.count as real + 0.5
          || (c.count == 1 && (c.max - c.min) / c.step < 0.5))
  {
    var c := ScaleOf(low, high, step);
    QuotientSign(c.max - c.min, c.step);
  }

  lemma QuotientOf(x: real, step: real)
    requires step > 0.0
    ensures (x * step) / step == x
  {
  }

  lemma QuotientTimes(x: real, step: real)
    requires step > 0.0
    ensures (x / step) * step == x
  {
  }

  lemma QuotientSign(x: real, step: real)
    requires step > 0.0 && x >= 0.0
    ensures x / step >= 0.0
  {
  }

  lemma ShortOf(x: real, step: real)
    requires step > 0.0 && x / step < 0.5
    ensures x < 0.5 * step
  {
    var q := x / step;
    assert q * step == x;
    assert (0.5 - q) * step > 0.0;
  }

  lemma MulKeepsOrder(x: real, y: real, step: real)
    requires step > 0.0 && x <= y
    ensures x * step <= y * step
  {
  }

  /** An index whose value lies inside the range is read back as itself. */
  lemma InsideRoundTrips(c: Scale, i: int)
    requires ValidScale(c) && 0 <= i <= c.count
    requires i as real <= (c.max - c.min) / c.step
    ensures ToValue(c, i) == c.min + i as real * c.step
    ensures ToIndex(c, ToValue(c, i)) == i
  {
    var q := (c.max - c.min) / c.step;
    MulKeepsOrder(0.0, i as real, c.step);
    MulKeepsOrder(i as real, q, c.step);
    QuotientTimes(c.max - c.min, c.step);
    QuotientOf(i as real, c.step);
    var d := ToValue(c, i) - c.min;
    assert d == i as real * c.step;
    assert d / c.step == i as real;
    assert Lround(i as real) == i;
  }

  /** The last index may be cut off at the top of the range; it still reads back as itself. */
  lemma TopRoundTrips(c: Scale)
    requires Derived(c) && c.count as real > (c.max - c.min) / c.step >= 0.5
    ensures ToValue(c, c.count) == c.max && ToIndex(c, c.max) == c.count
  {
    var q := (c.max - c.min) / c.step;
    MulKeepsOrder(q, c.count as real, c.step);
    QuotientTimes(c.max - c.min, c.step);
    assert c.count == Lround(q);
  }

  /** A range of less than half a step: the second of its two positions collapses onto the first. */
  lemma NarrowRangeCollapses(c: Scale)
    requires Derived(c) && (c.max - c.min) / c.step < 0.5
    ensures c.count == 1 && ToIndex(c, ToValue(c, 1)) == 0
  {
    var width := c.max - c.min;
    var q := width / c.step;
    QuotientSign(width, c.step);
    assert Lround(q) == 0;
    ShortOf(width, c.step);
    assert 1 as real * c.step == c.step;
    assert c.min + c.step > c.max;
    assert ToValue(c, 1) == c.max;
  }

  function Apart(x: real, y: real): real { if x <= y then y - x else x - y }

  /** A value lies `q` steps above the lower bound; the knob stands at the position nearest to that. */
  lemma IndexIsNearest(c: Scale, value: real, q: real, n: int)
    requires ValidScale(c) && value - c.min == q * c.step && 0 <= n <= c.count
    ensures 0 <= ToIndex(c, value) <= c.count
    ensures Apart(ToIndex(c, value) as real, q) <= Apart(n as real, q)
  {
    QuotientOf(q, c.step);
    RoundedIsNearest(q, n, c.count);
  }

  lemma RoundedIsNearest(q: real, n: int, count: int)
    requires 0 <= n <= count
    ensures Apart(ClampInt(Lround(q), 0, count) as real, q) <= Apart(n as real, q)
  {
    var i := Lround(q);
    assert i as real - 0.5 <= q <= i as real + 0.5;
    assert n == i || n as real <= i as real - 1.0 || n as real >= i as real + 1.0;
  }

  /** Moving the knob and reading the value back never shifts it. */
  predicate KnobRoundTrips(c: Scale)
    requires ValidScale(c)
  {
    forall i :: 0 <= i <= c.count ==> ToIndex(c, ToValue(c, i)) == i
  }

  /** The knob round-trips at every position exactly when the range is at least half a step. */
  lemma KnobRoundTripsIff(c: Scale)
    requires Derived(c)
    ensures KnobRoundTrips(c) <==> (c.max - c.min) / c.step >= 0.5
  {
    var q := (c.max - c.min) / c.step;
    if q >= 0.5 {
      forall i | 0 <= i <= c.count ensures ToIndex(c, ToValue(c, i)) == i {
        if i as real <= q {
          InsideRoundTrips(c, i);
        } else {
          assert c.count == Lround(q) && i == c.count;
          TopRoundTrips(c);
        }
      }
    } else {
      NarrowRangeCollapses(c);
      assert ToIndex(c, ToValue(c, 1)) != 1;
    }
  }

  // ---------------------------------------------------------------- the control

  /** The stored properties, the scale last applied from them, and the LVGL slider. */
  datatype Control = Control(
    low: real, high: real, step: real, value: real,
    scale: Scale,
    built: bool, active: bool, pressed: bool,
    knob: int)

  predicate ValidControl(s: Control) {
    ValidScale(s.scale) && (s.active ==> s.built)
  }

  function Refreshed(s: Control): Control
    requires ValidScale(s.scale)
  {
    if !s.built || s.pressed then s else s.(knob := ToIndex(s.scale, s.value))
  }

  function RangeApplied(s: Control): Control {
    Refreshed(s.(scale := ScaleOf(s.low, s.high, s.step)))
  }

  /** An inbound value reaches the store always, the LVGL slider only while the control is active. */
  function ValueArrived(s: Control, value: real): Control
    requires ValidScale(s.scale)
  {
    var s1 := s.(value := value);
    if s.active then Refreshed(s1) else s1
  }

  function RangeArrived(s: Control, low: real, high: real, step: real): Control {
    var s1 := s.(low := low, high := high, step := step);
    if s.active then RangeApplied(s1) else s1
  }

  function Shown(s: Control): Control
    requires ValidScale(s.scale)
  {
    var s1 := s.(built := true, active := true);
    RangeApplied(Refreshed(s1))
  }

  function Hidden(s: Control): Control {
    s.(active := false)
  }

  /** A drag tick puts the knob at `k`; the value it asks for, if any. */
  function Dragged(s: Control, k: int): (Control, Option<real>)
    requires ValidScale(s.scale)
  {
    var s1 := s.(knob := k);
    if s.scale.max <= s.scale.min then (s1, None)
    else (s1.(value := ToValue(s.scale, k)), Some(ToValue(s.scale, k)))
  }

  function Pressed(s: Control): Control {
    s.(pressed := true)
  }

  function Released(s: Control): Control
    requires ValidScale(s.scale)
  {
    Refreshed(s.(pressed := false))
  }

  /** A knob under the finger is left where it is by everything but the finger, and so is one that is not shown. */
  lemma KnobIsLeftAlone(s: Control, value: real, low: real, high: real, step: real)
    requires ValidControl(s) && (s.pressed || !s.active)
    ensures ValueArrived(s, value).knob == s.knob && RangeArrived(s, low, high, step).knob == s.knob
    ensures s.pressed ==> Shown(s).knob == s.knob
    ensures Hidden(s).knob == s.knob && Pressed(s).knob == s.knob
  {
  }

  /** A shown knob nobody holds goes to the value that arrives, over the range that arrives. */
  lemma KnobFollows(s: Control, value: real, low: real, high: real, step: real)
    requires ValidControl(s) && s.active && !s.pressed
    ensures ValueArrived(s, value).knob == ToIndex(s.scale, value)
    ensures RangeArrived(s, low, high, step).knob == ToIndex(ScaleOf(low, high, step), s.value)
    ensures Released(Pressed(s)).knob == ToIndex(s.scale, s.value)
  {
  }

  /** A drag over a range asks for the value it stores, inside the range; without a range it asks for nothing. */
  lemma DragAsksIff(s: Control, k: int)
    requires ValidScale(s.scale)
    ensures
      var (after, asked) := Dragged(s, k);
      && (asked.Some? <==> s.scale.min < s.scale.max) && after.knob == k
      && after.(value := s.value, knob := s.knob) == s
      && (asked.None? ==> after.value == s.value)
      && (asked.Some? ==> after.value == asked.value && s.scale.min <= asked.value <= s.scale.max)
  {
  }

  /** Showing builds the slider and takes the stored range and value; it reacts from then on, until it is hidden. */
  lemma ShownReacts(s: Control)
    requires ValidControl(s)
    ensures
      var shown, scale := Shown(s), ScaleOf(s.low, s.high, s.step);
      && shown.built && shown.active && shown.scale == scale
      && (!s.pressed ==> shown.knob == ToIndex(scale, s.value))
      && shown.(built := s.built, active := s.active, scale := s.scale, knob := s.knob) == s
    ensures !Hidden(s).active && Hidden(s).(active := s.active) == s
  {
  }

  class SliderControl {
    var low: real
    var high: real
    var stepProperty: real
    var value: real
    var min: real
    var max: real
    var step: real
    var stepCount: int
    var isBuilt: bool
    var isActive: bool
    var isPressed: bool
    var knob: int

    ghost predicate Valid()
      reads this
    {
      ValidControl(State())
    }

    ghost function State(): Control
      reads this
    {
      Control(low, high, stepProperty, value, Scale(min, max, step, stepCount), isBuilt, isActive, isPressed, knob)
    }

    constructor ()
      ensures Valid() && !isBuilt && !isActive
      ensures State() == Control(0.0, 0.0, 0.0, 0.0, ScaleOf(0.0, 0.0, 0.0), false, false, false, 0)
    {
      low, high, stepProperty, value := 0.0, 0.0, 0.0, 0.0;
      min, max, step, stepCount := 0.0, 0.0, 1.0, 1;
      isBuilt, isActive, isPressed, knob := false, false, false, 0;
    }

    method ApplyRange()
      modifies this
      ensures State() == RangeApplied(old(State()))
    {
      min := if high < low then high else low;
      max := if low < high then high else low;
      step := if stepProperty > 0.0 then stepProperty else 1.0;
      var n := Lround((max - min) / step);
      stepCount := if n < 1 then 1 else n;
      UpdateSlider();
    }

    method UpdateSlider()
      requires ValidScale(State().scale)
      modifies `knob
      ensures State() == Refreshed(old(State()))
    {
      if !isBuilt {
        return;
      }
      if isPressed {
        return;
      }
      knob := ToIndex(Scale(min, max, step, stepCount), value);
    }

    /** A Changed event on the VALUE binding. */
    method OnValueEvent(v: real)
      requires Valid()
      modifies this
      ensures State() == ValueArrived(old(State()), v) && Valid()
    {
      value := v;
      if isActive {
        UpdateSlider();
      }
    }

    /** One RangeChanged event reaches the three range bindings one after the other. */
    method OnRangeEvent(newLow: real, newHigh: real, newStep: real)
      requires Valid()
      modifies this
      ensures State() == RangeArrived(old(State()), newLow, newHigh, newStep) && Valid()
    {
      low := newLow;
      if isActive {
        ApplyRange();
      }
      high := newHigh;
      if isActive {
        ApplyRange();
      }
      stepProperty := newStep;
      if isActive {
        ApplyRange();
      }
    }

    method OnActivated()
      requires Valid()
      modifies this
      ensures State() == Shown(old(State())) && Valid()
    {
      isBuilt := true;
      isActive := true;
      UpdateSlider();
      ApplyRange();
    }

    /** LV_EVENT_VALUE_CHANGED with the knob at `k`; `asked` is what SetPropertyLocal publishes. */
    method OnValueChanged(k: int) returns (asked: Option<real>)
      requires Valid()
      modifies this
      ensures (State(), asked) == Dragged(old(State()), k) && Valid()
    {
      knob := k;
      asked := None;
      if max <= min {
        return;
      }
      value := ToValue(Scale(min, max, step, stepCount), knob);
      asked := Some(value);
    }

    method OnReleased()
      requires Valid()
      modifies this
      ensures State() == Released(old(State())) && Valid()
    {
      isPressed := false;
      UpdateSlider();
    }
  }
}
