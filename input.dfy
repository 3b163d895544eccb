/** Input: what the field renders around the native input. */
module Input {
  import opened Wrappers
  import Js
  import Field

  datatype InputProps = InputProps(state: Field.FieldState, text: Option<string>,
                                   helperText: Option<string>, errorMessage: Option<string>,
                                   required: bool)

  /** The label (with its required marker), the state class, `aria-invalid` and the helper
      line. */
  datatype InputView = InputView(labelText: Option<string>, requiredMarker: bool,
                                 state: Field.FieldState, ariaInvalid: bool,
                                 helper: Option<string>)

  function View(p: InputProps): (v: InputView)
    ensures v.labelText.Some? <==> Js.Truthy(p.text)
    ensures v.labelText.Some? ==> v.labelText == p.text
    ensures v.requiredMarker <==> Js.Truthy(p.text) && p.required
    ensures v.state == Field.FinalState(p.state, p.errorMessage)
    ensures v.ariaInvalid <==> v.state == Field.Error
    ensures v.helper == Field.HelperText(p.errorMessage, p.helperText)
  {
    InputView(if Js.Truthy(p.text) then p.text else None,
              Js.Truthy(p.text) && p.required,
              Field.FinalState(p.state, p.errorMessage),
              Field.AriaInvalid(p.state, p.errorMessage),
              Field.HelperText(p.errorMessage, p.helperText))
  }

  /** With an error message the field is in the error state, marked invalid, and shows the
      message instead of the helper text, whatever state was asked for. */
  lemma ErrorOverridesState(p: InputProps)
    requires Js.Truthy(p.errorMessage)
    ensures View(p).state == Field.Error && View(p).ariaInvalid
    ensures View(p).helper == p.errorMessage
  {
  }
}
