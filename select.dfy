/** Select: the displayed option, the keyboard open/close machine, option choice and the
    outside-pointer close. */
module Select {
  import opened Wrappers
  import Js
  import Controlled

  datatype SelectOption = SelectOption(value: string, text: string, disabled: bool)

  /** The props the handlers and the trigger read. */
  datatype Props = Props(options: seq<SelectOption>, value: Option<string>, placeholder: string,
                         disabled: bool)

  const DefaultPlaceholder: string := "Select an option"

  /** A callback invocation. */
  datatype Call = OnChange(v: string)

  /** The index `options.find(o => o.value === current)` stops at: the first option whose
      value is `current`, or `None` when there is none. */
  function FindIndex(options: seq<SelectOption>, current: string): (r: Option<nat>)
    ensures r.None? <==> forall i :: 0 <= i < |options| ==> options[i].value != current
    ensures r.Some? ==> r.value < |options| && options[r.value].value == current
    ensures r.Some? ==> forall j :: 0 <= j < r.value ==> options[j].value != current
  {
    if options == [] then None
    else if options[0].value == current then Some(0)
    else
      var rest := FindIndex(options[1..], current);
      if rest.None? then None else Some(rest.value + 1)
  }

  /** `selectedOption`. */
  function SelectedOption(options: seq<SelectOption>, current: string): (r: Option<SelectOption>)
    ensures r.None? <==> forall i :: 0 <= i < |options| ==> options[i].value != current
    ensures r.Some? ==> r.value.value == current && r.value in options
  {
    var k := FindIndex(options, current);
    if k.None? then None else Some(options[k.value])
  }

  /** What the trigger shows: the selected option's label, or the placeholder (styled as
      such) when no option has the current value. */
  datatype TriggerView = TriggerView(text: string, isPlaceholder: bool)

  function Trigger(options: seq<SelectOption>, current: string, placeholder: string): (t: TriggerView)
    ensures t.isPlaceholder <==> forall i :: 0 <= i < |options| ==> options[i].value != current
    ensures t.isPlaceholder ==> t.text == placeholder
    ensures !t.isPlaceholder ==> exists i :: 0 <= i < |options| && options[i].value == current && t.text == options[i].text
  {
    var o := SelectedOption(options, current);
    if o.Some? then TriggerView(o.value.text, false) else TriggerView(placeholder, true)
  }

  /** With duplicate values the first option's label wins. */
  lemma FirstDuplicateWins(a: string, b: string)
    requires a != b
    ensures Trigger([SelectOption("x", a, false), SelectOption("x", b, false)], "x", DefaultPlaceholder).text == a
  {
  }

  /** How a key changes the open state when the select is enabled, and whether its default
      action is prevented. */
  datatype KeyOutcome = KeyOutcome(open: bool, prevented: bool)

  function KeyTransition(open: bool, key: string): (k: KeyOutcome)
    ensures key == "Enter" || key == " " ==> k == KeyOutcome(!open, true)
    ensures key == "Escape" ==> k == KeyOutcome(false, false)
    ensures key == "ArrowDown" ==> k == KeyOutcome(true, true)
    ensures key !in {"Enter", " ", "Escape", "ArrowDown"} ==> k == KeyOutcome(open, false)
  {
    if key == "Enter" || key == " " then KeyOutcome(!open, true)
    else if key == "Escape" then KeyOutcome(false, false)
    else if key == "ArrowDown" then KeyOutcome(true, true)
    else KeyOutcome(open, false)
  }

  /** Enter pressed twice returns to the starting state; Escape and ArrowDown are
      idempotent. */
  lemma KeyAlgebra(open: bool)
    ensures KeyTransition(KeyTransition(open, "Enter").open, "Enter").open == open
    ensures KeyTransition(KeyTransition(open, "Escape").open, "Escape") == KeyTransition(open, "Escape")
    ensures KeyTransition(KeyTransition(open, "ArrowDown").open, "ArrowDown") == KeyTransition(open, "ArrowDown")
  {
  }

  /** One rendered entry of the open list. */
  datatype Entry = Entry(text: string, selected: bool, disabled: bool)

  /** The list shown while open: an empty-state note when there are no options, otherwise one
      entry per option in order. */
  datatype ListView = Closed | EmptyState | Entries(entries: seq<Entry>)

  function List(options: seq<SelectOption>, current: string, open: bool): (v: ListView)
    ensures v.Closed? <==> !open
    ensures v.EmptyState? <==> open && options == []
    ensures v.Entries? ==> |v.entries| == |options| && forall i :: 0 <= i < |options| ==>
      v.entries[i] == Entry(options[i].text, options[i].value == current, options[i].disabled)
  {
    if !open then Closed
    else if options == [] then EmptyState
    else Entries(seq(|options|, i requires 0 <= i < |options| =>
      Entry(options[i].text, options[i].value == current, options[i].disabled)))
  }

  /** The option whose label the trigger shows is marked selected in the open list. */
  lemma ShownOptionIsMarked(options: seq<SelectOption>, current: string)
    requires FindIndex(options, current).Some?
    ensures List(options, current, true).entries[FindIndex(options, current).value].selected
    ensures List(options, current, true).entries[FindIndex(options, current).value].text
      == Trigger(options, current, DefaultPlaceholder).text
  {
  }

  /** The state one mounted Select keeps. The outside-pointer listener is attached for the
      component's whole life, so it needs no field. */
  class SelectState {
    var isOpen: bool
    var internalValue: string

    /** Starts closed, with `defaultValue || ''`. */
    constructor (defaultValue: Option<string>)
      ensures !isOpen
      ensures internalValue == (if Js.Truthy(defaultValue) then defaultValue.value else "")
    {
      isOpen := false;
      internalValue := if Js.Truthy(defaultValue) then defaultValue.value else "";
    }

    /** `currentValue`. */
    function Current(p: Props): string
      reads this
    {
      Controlled.Effective(p.value, internalValue)
    }

    /** `handleKeyDown`: ignored when disabled. */
    method KeyDown(p: Props, key: string) returns (prevented: bool)
      modifies this`isOpen
      ensures p.disabled ==> !prevented && isOpen == old(isOpen)
      ensures !p.disabled ==> KeyOutcome(isOpen, prevented) == KeyTransition(old(isOpen), key)
    {
      prevented := false;
      if p.disabled {
        return;
      }
      if key == "Enter" || key == " " {
        prevented := true;
        isOpen := !isOpen;
      } else if key == "Escape" {
        isOpen := false;
      } else if key == "ArrowDown" {
        prevented := true;
        if !isOpen {
          isOpen := true;
        }
      }
    }

    /** The trigger's click handler: toggles unless disabled. */
    method TriggerClick(p: Props)
      modifies this`isOpen
      ensures isOpen == (if p.disabled then old(isOpen) else !old(isOpen))
    {
      if !p.disabled {
        isOpen := !isOpen;
      }
    }

    /** `handleSelect`: a disabled option changes nothing; otherwise `onChange` gets the
        option's value, the internal value follows only when uncontrolled, and the list
        closes. */
    method Choose(p: Props, option: SelectOption) returns (calls: seq<Call>)
      modifies this
      ensures option.disabled ==>
        calls == [] && isOpen == old(isOpen) && internalValue == old(internalValue)
      ensures !option.disabled ==>
        calls == [OnChange(option.value)] && !isOpen
        && internalValue == Controlled.NextInternal(p.value, old(internalValue), option.value)
      ensures !option.disabled && p.value.None? ==> Current(p) == option.value
      ensures p.value.Some? ==> Current(p) == old(Current(p))
    {
      if option.disabled {
        return [];
      }
      if p.value.None? {
        internalValue := option.value;
      }
      calls := [OnChange(option.value)];
      isOpen := false;
    }

    /** The document `mousedown` listener: a press outside the wrapper closes the list, one
        inside leaves it as it is. */
    method PointerDown(inside: bool)
      modifies this`isOpen
      ensures isOpen == (old(isOpen) && inside)
    {
      if !inside {
        isOpen := false;
      }
    }
  }
}
