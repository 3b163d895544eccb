/** Progress and ProgressCircular: the `[0, 100]` clamp, what is shown when indeterminate,
    the label wrapper and the colour class. Values are integers here. */
module Spinner {
  import opened Wrappers
  import Js
  import Decimal

  datatype ProgressColor = Primary | Success | Warning | Error

  const DefaultValue: int := 0
  const DefaultColor: ProgressColor := Primary

  /** `Math.min(100, Math.max(0, value))`. */
  function Clamp(value: int): (r: int)
    ensures 0 <= r <= 100
    ensures 0 <= value <= 100 ==> r == value
    ensures value < 0 ==> r == 0
    ensures value > 100 ==> r == 100
  {
    if value < 0 then 0 else if value > 100 then 100 else value
  }

  /** Clamping is idempotent and monotone. */
  lemma ClampIdempotentMonotone(a: int, b: int)
    ensures Clamp(Clamp(a)) == Clamp(a)
    ensures a <= b ==> Clamp(a) <= Clamp(b)
  {
  }

  /** `${clampedValue}%`. */
  function PercentText(v: int): (s: string)
    ensures |s| >= 2 && s[|s| - 1] == '%'
    ensures v < 0 <==> s[0] == '-'
    ensures v >= 0 ==> Decimal.IsDigit(s[0])
    ensures forall k :: 0 < k < |s| - 1 ==> Decimal.IsDigit(s[k])
    ensures Decimal.ParseInt(s[..|s| - 1]) == v
  {
    var digits := Decimal.IntToString(v);
    Decimal.IntRoundTrip(v);
    assert (digits + "%")[..|digits|] == digits;
    digits + "%"
  }

  /** Different values never show the same percentage text. */
  lemma PercentTextInjective(a: int, b: int)
    requires PercentText(a) == PercentText(b)
    ensures a == b
  {
    var sa := Decimal.IntToString(a);
    var sb := Decimal.IntToString(b);
    assert |sa| == |sb|;
    assert sa == PercentText(a)[..|sa|];
    assert sb == PercentText(b)[..|sb|];
    Decimal.IntToStringInjective(a, b);
  }

  /** The colour modifier: none for `primary`, else one class per colour. */
  function ColorClass(c: ProgressColor): (r: Option<ProgressColor>)
    ensures r.None? <==> c == Primary
    ensures r.Some? ==> r.value == c
  {
    if c == Primary then None else Some(c)
  }

  datatype ProgressProps = ProgressProps(value: int, indeterminate: bool, color: ProgressColor,
                                         text: Option<string>, showValue: bool)

  /** The track: `aria-valuenow`, the bar's width style, and its modifier classes. */
  datatype Bar = Bar(valueNow: Option<int>, width: Option<string>, indeterminateClass: bool,
                     colorClass: Option<ProgressColor>)

  /** The label row above a wrapped bar. */
  datatype LabelRow = LabelRow(text: Option<string>, valueText: Option<string>)

  datatype ProgressView = BareBar(bar: Bar) | Wrapped(row: LabelRow, bar: Bar)

  /** `Progress`. */
  function Progress(p: ProgressProps): (v: ProgressView)
    ensures v.Wrapped? <==> Js.Truthy(p.text) || p.showValue
    ensures v.bar.valueNow.None? <==> p.indeterminate
    ensures v.bar.width.None? <==> p.indeterminate
    ensures !p.indeterminate ==>
      v.bar.valueNow == Some(Clamp(p.value)) && v.bar.width == Some(PercentText(Clamp(p.value)))
    ensures v.bar.indeterminateClass == p.indeterminate && v.bar.colorClass == ColorClass(p.color)
    ensures v.Wrapped? ==> (v.row.text.Some? <==> Js.Truthy(p.text))
    ensures v.Wrapped? && v.row.text.Some? ==> v.row.text == p.text
    ensures v.Wrapped? ==> (v.row.valueText.Some? <==> p.showValue && !p.indeterminate)
    ensures v.Wrapped? && v.row.valueText.Some? ==> v.row.valueText == Some(PercentText(Clamp(p.value)))
  {
    var c := Clamp(p.value);
    var bar := Bar(if p.indeterminate then None else Some(c),
                   if p.indeterminate then None else Some(PercentText(c)),
                   p.indeterminate, ColorClass(p.color));
    if Js.Truthy(p.text) || p.showValue then
      Wrapped(LabelRow(if Js.Truthy(p.text) then p.text else None,
                       if p.showValue && !p.indeterminate then Some(PercentText(c)) else None),
              bar)
    else BareBar(bar)
  }

  /** What the bar announces and what it draws always agree, and stay in `[0, 100]` whatever
      value is passed. */
  lemma ProgressConsistent(p: ProgressProps)
    ensures var b := Progress(p).bar;
      b.valueNow.Some? ==> 0 <= b.valueNow.value <= 100 && b.width == Some(PercentText(b.valueNow.value))
  {
  }

  datatype CircularProps = CircularProps(value: int, indeterminate: bool, color: ProgressColor,
                                         showValue: bool)

  /** What `ProgressCircular` renders besides geometry: the clamped value the dash offset is
      computed from (absent when indeterminate), the centred text and the colour class. */
  datatype CircularView = CircularView(offsetValue: Option<int>, valueText: Option<string>,
                                       colorClass: Option<ProgressColor>)

  function Circular(p: CircularProps): (v: CircularView)
    ensures v.offsetValue.None? <==> p.indeterminate
    ensures v.offsetValue.Some? ==> v.offsetValue.value == Clamp(p.value)
    ensures v.valueText.Some? <==> p.showValue && !p.indeterminate
    ensures v.valueText.Some? ==> v.valueText.value == PercentText(Clamp(p.value))
    ensures v.colorClass == ColorClass(p.color)
  {
    var c := Clamp(p.value);
    CircularView(if p.indeterminate then None else Some(c),
                 if p.showValue && !p.indeterminate then Some(PercentText(c)) else None,
                 ColorClass(p.color))
  }

  /** The linear and circular indicators show the same percentage for the same props. */
  lemma LinearAndCircularAgree(value: int, indeterminate: bool, color: ProgressColor)
    ensures Progress(ProgressProps(value, indeterminate, color, None, true)).row.valueText
      == Circular(CircularProps(value, indeterminate, color, true)).valueText
  {
  }
}
