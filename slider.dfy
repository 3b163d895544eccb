/** Slider: keyboard stepping, pointer-position rounding and clamping, and the
    controlled/uncontrolled update done by the key and drag handlers. */
module Slider {
  import opened Wrappers
  import Controlled

  /** The props the handlers read. Omitted props take the defaults below. */
  datatype Props = Props(value: Option<int>, min: int, max: int, step: int, disabled: bool)

  const DefaultValue: int := 0
  const DefaultMin: int := 0
  const DefaultMax: int := 100
  const DefaultStep: int := 1

  /** A callback invocation, in the order the handler makes them. */
  datatype Call = OnChange(v: int) | OnChangeEnd(v: int)

  function Min(a: int, b: int): int
  {
    if a < b then a else b
  }

  function Max(a: int, b: int): int
  {
    if a < b then b else a
  }

  /** The keys the slider reacts to. */
  predicate IsSliderKey(key: string)
  {
    key == "ArrowRight" || key == "ArrowUp" || key == "ArrowLeft" || key == "ArrowDown"
    || key == "Home" || key == "End"
  }

  /** The value a key press moves to from `cur`, or `None` for a key the slider ignores. */
  function KeyTarget(key: string, cur: int, min: int, max: int, step: int): (r: Option<int>)
    ensures r.None? <==> !IsSliderKey(key)
    ensures key == "Home" ==> r == Some(min)
    ensures key == "End" ==> r == Some(max)
    ensures key == "ArrowRight" || key == "ArrowUp" ==>
      r.Some? && r.value <= max && r.value <= cur + step && (r.value == max || r.value == cur + step)
    ensures key == "ArrowLeft" || key == "ArrowDown" ==>
      r.Some? && r.value >= min && r.value >= cur - step && (r.value == min || r.value == cur - step)
  {
    if key == "ArrowRight" || key == "ArrowUp" then Some(Min(max, cur + step))
    else if key == "ArrowLeft" || key == "ArrowDown" then Some(Max(min, cur - step))
    else if key == "Home" then Some(min)
    else if key == "End" then Some(max)
    else None
  }

  /** An arrow moves by exactly `step` unless that would cross a bound, in which case it stops
      at the bound. */
  lemma ArrowMovesByStep(key: string, cur: int, min: int, max: int, step: int)
    requires step >= 0 && min <= cur <= max
    ensures key == "ArrowRight" || key == "ArrowUp" ==>
      var r := KeyTarget(key, cur, min, max, step).value;
      cur <= r <= max && (r == cur + step || (r == max && cur + step > max))
    ensures key == "ArrowLeft" || key == "ArrowDown" ==>
      var r := KeyTarget(key, cur, min, max, step).value;
      min <= r <= cur && (r == cur - step || (r == min && cur - step < min))
  {
  }

  /** From a value in range, every key keeps the value in range. */
  lemma KeyStaysInRange(key: string, cur: int, min: int, max: int, step: int)
    requires step >= 0 && min <= cur <= max && IsSliderKey(key)
    ensures min <= KeyTarget(key, cur, min, max, step).value <= max
  {
  }

  /** From 50 with step 10, ArrowRight gives 60. */
  lemma ArrowRightExample()
    ensures KeyTarget("ArrowRight", 50, DefaultMin, DefaultMax, 10) == Some(60)
  {
  }

  /** `Math.round(raw / step)` for an integer `raw`: the nearest integer, halves rounding
      up as `Math.round` does. */
  function RoundedSteps(raw: int, step: int): (q: int)
    requires step > 0
    ensures -step < 2 * (q * step - raw) <= step
  {
    var q := (2 * raw + step) / (2 * step);
    var m := (2 * raw + step) % (2 * step);
    assert 2 * raw + step == 2 * step * q + m && 0 <= m < 2 * step;
    q
  }

  /** `Math.round(raw / step) * step`: the multiple of `step` nearest to `raw`. */
  function RoundToStep(raw: int, step: int): (v: int)
    requires step > 0
    ensures v == RoundedSteps(raw, step) * step
    ensures -step < 2 * (v - raw) <= step
  {
    RoundedSteps(raw, step) * step
  }

  /** 23 with step 5 rounds to 25 and 22 to 20; half-way values round towards positive
      infinity, so 25 goes to 30 and -25 to -20 with step 10. */
  lemma RoundExamples()
    ensures RoundToStep(23, 5) == 25 && RoundToStep(22, 5) == 20 && RoundToStep(25, 10) == 30
    ensures RoundToStep(-25, 10) == -20
  {
  }

  /** `Math.min(max, Math.max(min, v))`. */
  function Clamp(v: int, min: int, max: int): (r: int)
    ensures min <= max ==> min <= r <= max
    ensures min <= v <= max ==> r == v
    ensures min <= max && v < min ==> r == min
    ensures min <= max && v > max ==> r == max
    ensures min > max ==> r == max
  {
    Min(max, Max(min, v))
  }

  /** `getValueFromPosition`: without a mounted track the current value; otherwise the raw
      position value rounded to a multiple of `step` and clamped into `[min, max]`. */
  function PositionValue(raw: Option<int>, cur: int, p: Props): (v: int)
    requires p.step > 0
    ensures raw.None? ==> v == cur
    ensures raw.Some? && p.min <= p.max ==> p.min <= v <= p.max
    ensures raw.Some? && p.min <= p.max && p.min < v < p.max ==>
      v == RoundedSteps(raw.value, p.step) * p.step && -p.step < 2 * (v - raw.value) <= p.step
    ensures raw.Some? ==> v == Clamp(RoundToStep(raw.value, p.step), p.min, p.max)
    ensures raw.Some? && p.min <= p.max && RoundToStep(raw.value, p.step) <= p.min ==> v == p.min
    ensures raw.Some? && p.min <= p.max && RoundToStep(raw.value, p.step) >= p.max ==> v == p.max
    ensures raw.Some? && p.min > p.max ==> v == p.max
  {
    if raw.None? then cur else Clamp(RoundToStep(raw.value, p.step), p.min, p.max)
  }

  /** The state one mounted Slider keeps. */
  class SliderState {
    var internalValue: int
    var isDragging: bool

    constructor (defaultValue: int)
      ensures internalValue == defaultValue && !isDragging
    {
      internalValue := defaultValue;
      isDragging := false;
    }

    /** `currentValue`: the `value` prop when defined, else the internal value. */
    function Current(p: Props): int
      reads this
    {
      Controlled.Effective(p.value, internalValue)
    }

    /** `handleKeyDown`. A disabled slider or an ignored key changes nothing and calls
        nothing; otherwise the default action is prevented, the internal value follows only
        when uncontrolled, and `onChange` then `onChangeEnd` get the new value. */
    method KeyDown(p: Props, key: string) returns (prevented: bool, calls: seq<Call>)
      modifies this`internalValue
      ensures var target := KeyTarget(key, old(Current(p)), p.min, p.max, p.step);
        if p.disabled || target.None? then
          !prevented && calls == [] && internalValue == old(internalValue)
        else
          prevented && calls == [OnChange(target.value), OnChangeEnd(target.value)]
          && internalValue == Controlled.NextInternal(p.value, old(internalValue), target.value)
    {
      prevented, calls := false, [];
      if p.disabled {
        return;
      }
      var target := KeyTarget(key, Current(p), p.min, p.max, p.step);
      if target.None? {
        return;
      }
      prevented := true;
      if p.value.None? {
        internalValue := target.value;
      }
      calls := [OnChange(target.value), OnChangeEnd(target.value)];
    }

    /** `handleDragStart`: ignored when disabled; otherwise the default is prevented,
        dragging starts and the value jumps to the pointer position. */
    method DragStart(p: Props, raw: Option<int>) returns (prevented: bool, calls: seq<Call>)
      requires p.step > 0
      modifies this
      ensures p.disabled ==>
        !prevented && calls == [] && internalValue == old(internalValue)
        && isDragging == old(isDragging)
      ensures !p.disabled ==>
        var v := PositionValue(raw, old(Current(p)), p);
        prevented && isDragging && calls == [OnChange(v)]
        && internalValue == Controlled.NextInternal(p.value, old(internalValue), v)
    {
      if p.disabled {
        return false, [];
      }
      prevented := true;
      isDragging := true;
      var v := PositionValue(raw, Current(p), p);
      if p.value.None? {
        internalValue := v;
      }
      calls := [OnChange(v)];
    }

    /** The window `mousemove`/`touchmove` listener, attached only while dragging. */
    method DragMove(p: Props, raw: Option<int>) returns (calls: seq<Call>)
      requires p.step > 0
      modifies this`internalValue
      ensures !isDragging ==> calls == [] && internalValue == old(internalValue)
      ensures isDragging ==>
        var v := PositionValue(raw, old(Current(p)), p);
        calls == [OnChange(v)]
        && internalValue == Controlled.NextInternal(p.value, old(internalValue), v)
    {
      if !isDragging {
        return [];
      }
      var v := PositionValue(raw, Current(p), p);
      if p.value.None? {
        internalValue := v;
      }
      calls := [OnChange(v)];
    }

    /** The window `mouseup`/`touchend` listener: dragging stops and `onChangeEnd` gets the
        current value. */
    method DragEnd(p: Props) returns (calls: seq<Call>)
      modifies this`isDragging
      ensures !old(isDragging) ==> calls == [] && !isDragging
      ensures old(isDragging) ==> !isDragging && calls == [OnChangeEnd(Current(p))]
    {
      if !isDragging {
        return [];
      }
      isDragging := false;
      calls := [OnChangeEnd(Current(p))];
    }
  }
}
