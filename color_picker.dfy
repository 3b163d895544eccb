/** ColorPicker: the current colour resolved from the `value` prop or internal state, the
    hex-input validator, preset selection, the open toggle with its outside-pointer close, and
    the hex parser's fallback for malformed input. The HSL arithmetic is not modelled: a parsed
    colour is kept as its three channel values. */
module ColorPicker {
  import opened Wrappers
  import Ascii
  import Js
  import Controlled

  const DefaultColor: string := "#3b82f6"

  const DefaultPresets: seq<string> := [
    "#ef4444", "#f97316", "#eab308", "#22c55e", "#06b6d4",
    "#3b82f6", "#8b5cf6", "#ec4899", "#000000", "#ffffff"
  ]

  /** The picker's HSL state: a literal triple, or the conversion of three channel values
      parsed from a hex string (the floating-point conversion itself is left out). */
  datatype Hsl = Literal(h: int, s: int, l: int) | FromRgb(r: nat, g: nat, b: nat)

  /** What `hexToHsl` returns for a string it cannot parse. */
  const FallbackHsl: Hsl := Literal(0, 100, 50)

  /** A callback invocation. */
  datatype Call = OnChange(color: string)

  predicate IsHexDigit(c: char)
  {
    '0' <= c <= '9' || 'a' <= c <= 'f' || 'A' <= c <= 'F'
  }

  predicate AllHex(s: string)
  {
    forall k :: 0 <= k < |s| ==> IsHexDigit(s[k])
  }

  /** `parseInt(c, 16)` for one hex digit. */
  function HexValue(c: char): (v: nat)
    requires IsHexDigit(c)
    ensures v < 16
  {
    if '0' <= c <= '9' then c as int - '0' as int
    else if 'a' <= c <= 'f' then c as int - 'a' as int + 10
    else c as int - 'A' as int + 10
  }

  /** `parseInt(pair, 16)` for two hex digits. */
  function PairValue(s: string, i: nat): (v: nat)
    requires i + 2 <= |s| && IsHexDigit(s[i]) && IsHexDigit(s[i + 1])
    ensures v < 256
  {
    16 * HexValue(s[i]) + HexValue(s[i + 1])
  }

  /** The strings `/^#?([a-f\d]{2})([a-f\d]{2})([a-f\d]{2})$/i` matches. */
  predicate HexShaped(s: string): (r: bool)
    ensures r ==> |s| == 6 || |s| == 7
    ensures r ==> forall k :: |s| - 6 <= k < |s| ==> IsHexDigit(s[k])
  {
    (|s| == 7 && s[0] == '#' && AllHex(s[1..])) || (|s| == 6 && AllHex(s))
  }

  /** `hexToHsl`: the channels of a well-formed string, else the fixed fallback. */
  function HexToHsl(hex: string): (r: Hsl)
    ensures HexShaped(hex) <==> r.FromRgb?
    ensures !HexShaped(hex) ==> r == FallbackHsl
    ensures r.FromRgb? ==> r.r < 256 && r.g < 256 && r.b < 256
  {
    if !HexShaped(hex) then FallbackHsl
    else
      var d := if |hex| == 7 then hex[1..] else hex;
      FromRgb(PairValue(d, 0), PairValue(d, 2), PairValue(d, 4))
  }

  /** The lower-case hex digit of a value below 16. */
  function DigitOf(v: nat): (c: char)
    requires v < 16
    ensures IsHexDigit(c) && HexValue(c) == v
  {
    if v < 10 then ('0' as int + v) as char else ('a' as int + v - 10) as char
  }

  /** A channel value written as two hex digits, zero-padded. */
  function Byte(v: nat): (s: string)
    requires v < 256
    ensures |s| == 2 && AllHex(s) && PairValue(s, 0) == v
  {
    [DigitOf(v / 16), DigitOf(v % 16)]
  }

  /** `#rrggbb` for three channel values. */
  function RgbToHex(r: nat, g: nat, b: nat): (s: string)
    requires r < 256 && g < 256 && b < 256
    ensures |s| == 7 && s[0] == '#'
  {
    "#" + Byte(r) + Byte(g) + Byte(b)
  }

  /** Parsing a formatted colour gives its channels back. */
  lemma HexRoundTrip(r: nat, g: nat, b: nat)
    requires r < 256 && g < 256 && b < 256
    ensures HexToHsl(RgbToHex(r, g, b)) == FromRgb(r, g, b)
  {
    var s := RgbToHex(r, g, b);
    var d := s[1..];
    assert d == Byte(r) + Byte(g) + Byte(b);
    assert d[0..2] == Byte(r) && d[2..4] == Byte(g) && d[4..6] == Byte(b);
    assert AllHex(d) by {
      forall k | 0 <= k < 6
        ensures IsHexDigit(d[k])
      {
        if k < 2 { assert d[k] == Byte(r)[k]; }
        else if k < 4 { assert d[k] == Byte(g)[k - 2]; }
        else { assert d[k] == Byte(b)[k - 4]; }
      }
    }
    assert PairValue(d, 0) == PairValue(Byte(r), 0);
    assert PairValue(d, 2) == PairValue(Byte(g), 0);
    assert PairValue(d, 4) == PairValue(Byte(b), 0);
  }

  /** The parser ignores letter case. */
  lemma HexToHslIgnoresCase(hex: string)
    ensures HexToHsl(Ascii.UpperString(hex)) == HexToHsl(hex)
  {
    var u := Ascii.UpperString(hex);
    forall k | 0 <= k < |hex|
      ensures IsHexDigit(u[k]) <==> IsHexDigit(hex[k])
      ensures IsHexDigit(hex[k]) ==> HexValue(u[k]) == HexValue(hex[k])
    {
    }
    if |hex| == 7 {
      assert u[1..] == Ascii.UpperString(hex[1..]);
    }
  }

  /** The input handler's prefixing: `'#' + hex` unless it already starts with `'#'`. */
  function Normalize(hex: string): (r: string)
    ensures |r| > 0 && r[0] == '#'
    ensures |hex| > 0 && hex[0] == '#' ==> r == hex
    ensures !(|hex| > 0 && hex[0] == '#') ==> r[1..] == hex
  {
    if |hex| > 0 && hex[0] == '#' then hex else "#" + hex
  }

  /** `/^#[0-9A-Fa-f]{6}$/`. */
  predicate ValidHex(s: string): (r: bool)
    ensures r <==> |s| > 0 && s[0] == '#' && HexShaped(s)
  {
    |s| == 7 && s[0] == '#' && AllHex(s[1..])
  }

  /** After prefixing, the input validator accepts exactly the strings the parser can read,
      so an accepted input never falls back to the default HSL. */
  lemma ValidatorMatchesParser(text: string)
    ensures ValidHex(Normalize(text)) <==> HexShaped(text)
    ensures ValidHex(Normalize(text)) ==> HexToHsl(Normalize(text)).FromRgb?
  {
    if |text| > 0 && text[0] == '#' {
      assert !IsHexDigit(text[0]);
    }
  }

  /** Prefixing twice is prefixing once. */
  lemma NormalizeIdempotent(text: string)
    ensures Normalize(Normalize(text)) == Normalize(text)
  {
  }

  /** Every default preset is a valid colour. */
  lemma DefaultPresetsValid()
    ensures forall i :: 0 <= i < |DefaultPresets| ==> ValidHex(DefaultPresets[i])
    ensures ValidHex(DefaultColor)
  {
  }

  /** The state one mounted ColorPicker keeps, with the `value` prop of the latest render;
      `listening` records whether the document `mousedown` listener is attached. */
  class ColorPickerState {
    var value: Option<string>
    var isOpen: bool
    var internalColor: string
    var hsl: Hsl
    var listening: bool

    /** The outside-pointer listener is attached exactly while the picker is open. */
    ghost predicate Valid()
      reads this
    {
      listening == isOpen
    }

    /** `currentColor`. */
    function Current(): string
      reads this
    {
      Controlled.Effective(value, internalColor)
    }

    /** The trigger's text: the current colour in upper case. */
    function SwatchLabel(): (r: string)
      reads this
      ensures |r| == |Current()|
      ensures forall k :: 0 <= k < |r| ==> r[k] == Ascii.Upper(Current()[k])
      ensures forall k :: 0 <= k < |r| ==> !('a' <= r[k] <= 'z')
      ensures HexToHsl(r) == HexToHsl(Current())
    {
      HexToHslIgnoresCase(Current());
      Ascii.UpperString(Current())
    }

    /** Mounts closed with `defaultValue` as the internal colour; the HSL state starts from
        `defaultValue` and the value-sync effect then replaces it when `value` is truthy. */
    constructor (value: Option<string>, defaultValue: string)
      ensures this.value == value && internalColor == defaultValue && !isOpen && Valid()
      ensures hsl == (if Js.Truthy(value) then HexToHsl(value.value) else HexToHsl(defaultValue))
    {
      this.value := value;
      isOpen := false;
      listening := false;
      internalColor := defaultValue;
      hsl := if Js.Truthy(value) then HexToHsl(value.value) else HexToHsl(defaultValue);
    }

    /** A re-render with a new `value` prop: the sync effect runs when the prop changed, and
        copies a truthy value into the HSL state. */
    method Rerender(v: Option<string>)
      modifies this`value, this`hsl
      ensures value == v
      ensures hsl == (if v != old(value) && Js.Truthy(v) then HexToHsl(v.value) else old(hsl))
    {
      if v != value && Js.Truthy(v) {
        hsl := HexToHsl(v.value);
      }
      value := v;
    }

    /** `handleHexInput`: the text is prefixed with `'#'` when needed; an invalid result
        changes nothing and calls nothing, a valid one updates the HSL state, the internal
        colour when uncontrolled, and calls `onChange` with it. */
    method HexInput(text: string) returns (calls: seq<Call>)
      modifies this`internalColor, this`hsl
      ensures var hex := Normalize(text);
        if ValidHex(hex) then
          calls == [OnChange(hex)] && hsl == HexToHsl(hex) && hsl.FromRgb?
          && internalColor == Controlled.NextInternal(value, old(internalColor), hex)
        else
          calls == [] && hsl == old(hsl) && internalColor == old(internalColor)
    {
      var hex := text;
      if !(|hex| > 0 && hex[0] == '#') {
        hex := "#" + hex;
      }
      if ValidHex(hex) {
        ValidatorMatchesParser(text);
        if value.None? {
          internalColor := hex;
        }
        hsl := HexToHsl(hex);
        calls := [OnChange(hex)];
      } else {
        calls := [];
      }
    }

    /** `handlePresetClick`: the colour is taken as given, without validation. */
    method PresetClick(color: string) returns (calls: seq<Call>)
      modifies this`internalColor, this`hsl
      ensures calls == [OnChange(color)] && hsl == HexToHsl(color)
      ensures internalColor == Controlled.NextInternal(value, old(internalColor), color)
    {
      if value.None? {
        internalColor := color;
      }
      hsl := HexToHsl(color);
      calls := [OnChange(color)];
    }

    /** `updateColor`, called by the saturation and hue drags with a new HSL state and the hex
        string the conversion produces for it. */
    method UpdateColor(newHsl: Hsl, hex: string) returns (calls: seq<Call>)
      modifies this`internalColor, this`hsl
      ensures calls == [OnChange(hex)] && hsl == newHsl
      ensures internalColor == Controlled.NextInternal(value, old(internalColor), hex)
    {
      if value.None? {
        internalColor := hex;
      }
      hsl := newHsl;
      calls := [OnChange(hex)];
    }

    /** The trigger: toggles unless disabled, then the listener effect runs. */
    method TriggerClick(disabled: bool)
      modifies this`isOpen, this`listening
      ensures isOpen == (if disabled then old(isOpen) else !old(isOpen))
      ensures Valid() && (disabled ==> listening == old(listening))
      requires Valid()
    {
      if !disabled {
        isOpen := !isOpen;
        listening := isOpen;
      }
    }

    /** A document `mousedown` while the listener is attached: a press outside closes. */
    method PointerDown(inside: bool)
      requires Valid()
      modifies this`isOpen, this`listening
      ensures Valid() && isOpen == (old(isOpen) && inside)
    {
      if listening && !inside {
        isOpen := false;
        listening := false;
      }
    }
  }
}
