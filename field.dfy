/** The error/helper-text precedence Input and TextArea share: a truthy `errorMessage` forces
    the error state, replaces the helper text, and marks the control `aria-invalid`. */
module Field {
  import opened Wrappers
  import Js

  /** The visual states; TextArea accepts all but `Warning`. */
  datatype FieldState = Default | Error | Success | Warning

  /** `finalState`. */
  function FinalState(state: FieldState, errorMessage: Option<string>): (r: FieldState)
    ensures Js.Truthy(errorMessage) ==> r == Error
    ensures !Js.Truthy(errorMessage) ==> r == state
  {
    if Js.Truthy(errorMessage) then Error else state
  }

  /** `displayHelperText`, rendered only when truthy: the error message when it is truthy,
      else the helper text when that is. */
  function HelperText(errorMessage: Option<string>, helperText: Option<string>): (r: Option<string>)
    ensures r.Some? <==> Js.Truthy(errorMessage) || Js.Truthy(helperText)
    ensures Js.Truthy(errorMessage) ==> r == errorMessage
    ensures !Js.Truthy(errorMessage) && Js.Truthy(helperText) ==> r == helperText
  {
    var t := Js.Or(errorMessage, helperText);
    if Js.Truthy(t) then t else None
  }

  /** `aria-invalid`. */
  function AriaInvalid(state: FieldState, errorMessage: Option<string>): (r: bool)
    ensures r <==> Js.Truthy(errorMessage) || state == Error
  {
    FinalState(state, errorMessage) == Error
  }

  /** An invalid-marked field with a truthy error message always displays that message, and
      a field without one never claims an error it was not given. */
  lemma ErrorShownWhenInvalid(state: FieldState, errorMessage: Option<string>, helperText: Option<string>)
    ensures Js.Truthy(errorMessage) ==>
      AriaInvalid(state, errorMessage) && HelperText(errorMessage, helperText) == errorMessage
    ensures state != Error && AriaInvalid(state, errorMessage) ==> Js.Truthy(errorMessage)
  {
  }
}
