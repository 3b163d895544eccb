/** TextArea: the character count kept in state, the limit flags derived from it, and the
    field precedence shared with Input. */
module TextArea {
  import opened Wrappers
  import Js
  import Decimal
  import Field

  /** The props the count and footer read. `onChangeGiven` says whether the caller passed an
      `onChange` prop, which then stays in the rest-props spread after the component's own
      handler. */
  datatype TextAreaProps = TextAreaProps(state: Field.FieldState, helperText: Option<string>,
                                         errorMessage: Option<string>, showCharCount: bool,
                                         maxLength: Option<int>, onChangeGiven: bool)

  /** `maxLength` as a condition: defined and not `0`. */
  predicate HasLimit(maxLength: Option<int>)
  {
    maxLength.Some? && maxLength.value != 0
  }

  /** The text the initial count is taken from: `value || defaultValue || ''`. */
  function InitialText(value: Option<string>, defaultValue: Option<string>): (t: string)
    ensures Js.Truthy(value) ==> t == value.value
    ensures !Js.Truthy(value) && Js.Truthy(defaultValue) ==> t == defaultValue.value
    ensures !Js.Truthy(value) && !Js.Truthy(defaultValue) ==> t == ""
  {
    if Js.Truthy(value) then value.value
    else if Js.Truthy(defaultValue) then defaultValue.value
    else ""
  }

  /** `isNearLimit`: at least 90% of the limit, compared exactly over integers. */
  predicate NearLimit(count: nat, maxLength: Option<int>): (r: bool)
    ensures r ==> HasLimit(maxLength)
    ensures HasLimit(maxLength) && maxLength.value > 0 ==>
      (r <==> count >= (9 * maxLength.value + 9) / 10)
    ensures HasLimit(maxLength) && count >= maxLength.value ==> r
  {
    HasLimit(maxLength) && 10 * count >= 9 * maxLength.value
  }

  /** `isOverLimit`. */
  predicate OverLimit(count: nat, maxLength: Option<int>): (r: bool)
    ensures r ==> HasLimit(maxLength)
    ensures HasLimit(maxLength) && count <= maxLength.value ==> !r
    ensures r ==> NearLimit(count, maxLength)
  {
    HasLimit(maxLength) && count > maxLength.value
  }

  /** Over the limit is always also near it, so the "limit" and "exceeded" classes never
      apply together; a negative limit puts every count over it. */
  lemma OverImpliesNear(count: nat, maxLength: Option<int>)
    ensures OverLimit(count, maxLength) ==> NearLimit(count, maxLength)
    ensures HasLimit(maxLength) && maxLength.value < 0 ==>
      OverLimit(count, maxLength) && NearLimit(count, maxLength)
  {
  }

  /** The style modifier of the count. */
  datatype CountClass = Plain | Limit | Exceeded

  function CountClassOf(count: nat, maxLength: Option<int>): (c: CountClass)
    ensures c == Exceeded <==> OverLimit(count, maxLength)
    ensures c == Limit <==> NearLimit(count, maxLength) && !OverLimit(count, maxLength)
    ensures c == Plain <==> !NearLimit(count, maxLength) && !OverLimit(count, maxLength)
  {
    if OverLimit(count, maxLength) then Exceeded
    else if NearLimit(count, maxLength) then Limit
    else Plain
  }

  /** With limit 200: 179 is plain, 180 and 200 are near, 201 is exceeded. */
  lemma CountClassExamples()
    ensures CountClassOf(179, Some(200)) == Plain
    ensures CountClassOf(180, Some(200)) == Limit && CountClassOf(200, Some(200)) == Limit
    ensures CountClassOf(201, Some(200)) == Exceeded
    ensures CountClassOf(5000, None) == Plain && CountClassOf(5000, Some(0)) == Plain
  {
  }

  /** The counter's text: the count, then ` / {maxLength}` when there is a limit. A
      `maxLength` of `0` is falsy but still a number, so React renders it as `0`. */
  function CountText(count: nat, maxLength: Option<int>): (s: string)
    ensures HasLimit(maxLength) ==>
      s == Decimal.IntToString(count) + " / " + Decimal.IntToString(maxLength.value)
    ensures maxLength.None? ==> s == Decimal.IntToString(count)
    ensures maxLength == Some(0) ==> s == Decimal.IntToString(count) + "0"
  {
    var c := Decimal.IntToString(count);
    if maxLength.None? then c
    else if maxLength.value == 0 then c + "0"
    else c + " / " + Decimal.IntToString(maxLength.value)
  }

  /** The footer below the control: the helper line and the counter. */
  datatype Footer = Footer(helper: Option<string>, counter: Option<(string, CountClass)>)

  function FooterOf(p: TextAreaProps, count: nat): (r: Option<Footer>)
    ensures r.Some? <==> Field.HelperText(p.errorMessage, p.helperText).Some? || p.showCharCount
    ensures r.Some? ==> r.value.helper == Field.HelperText(p.errorMessage, p.helperText)
    ensures r.Some? ==> (r.value.counter.Some? <==> p.showCharCount)
    ensures r.Some? && r.value.counter.Some? ==>
      r.value.counter.value == (CountText(count, p.maxLength), CountClassOf(count, p.maxLength))
  {
    var helper := Field.HelperText(p.errorMessage, p.helperText);
    if helper.None? && !p.showCharCount then None
    else Some(Footer(helper, if p.showCharCount
      then Some((CountText(count, p.maxLength), CountClassOf(count, p.maxLength)))
      else None))
  }

  /** The state one mounted TextArea keeps. */
  class TextAreaState {
    var charCount: nat

    /** The count starts at the length of `value || defaultValue || ''`. */
    constructor (value: Option<string>, defaultValue: Option<string>)
      ensures charCount == |InitialText(value, defaultValue)|
    {
      charCount := |InitialText(value, defaultValue)|;
    }

    /** A change event as the component is written: the spread puts a caller's `onChange` in
        place of `handleChange`, so the caller's handler runs and the count stays as it was;
        without one, `handleChange` updates the count and has nothing to forward. */
    method ChangeAsWritten(p: TextAreaProps, text: string) returns (forwarded: bool)
      modifies this
      ensures p.onChangeGiven ==> forwarded && charCount == old(charCount)
      ensures !p.onChangeGiven ==> !forwarded && charCount == |text|
    {
      if p.onChangeGiven {
        forwarded := true;
      } else {
        charCount := |text|;
        forwarded := false;
      }
    }

    /** A change event as `handleChange` intends: the count becomes the new text's length and
        the caller's `onChange`, if any, is forwarded. */
    method Change(p: TextAreaProps, text: string) returns (forwarded: bool)
      modifies this
      ensures charCount == |text| && forwarded == p.onChangeGiven
    {
      charCount := |text|;
      forwarded := p.onChangeGiven;
    }
  }

  /** As written: with an `onChange` prop, typing "ab" into an empty TextArea with limit 2
      leaves the counter at 0 and plain although the text has reached the limit. */
  method StaleCountExample() returns (shown: nat, typed: nat, cls: CountClass)
    ensures shown == 0 && typed == 2 && cls == Plain
    ensures CountClassOf(typed, Some(2)) == Limit
  {
    var t := new TextAreaState(None, None);
    var p := TextAreaProps(Field.Default, None, None, true, Some(2), true);
    var _ := t.ChangeAsWritten(p, "ab");
    shown, typed := t.charCount, |"ab"|;
    cls := CountClassOf(shown, p.maxLength);
  }

  /** Corrected: the same input shows 2 with the limit class, and the caller's handler still
      runs. */
  method CorrectedCountExample() returns (shown: nat, cls: CountClass, forwarded: bool)
    ensures shown == 2 && cls == Limit && forwarded
  {
    var t := new TextAreaState(None, None);
    var p := TextAreaProps(Field.Default, None, None, true, Some(2), true);
    forwarded := t.Change(p, "ab");
    shown := t.charCount;
    cls := CountClassOf(shown, p.maxLength);
  }
}
