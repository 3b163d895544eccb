/** AlertDialog: Escape and overlay close gated by `loading`, the confirm variant, the action
    buttons as Button renders them, and the same listener and scroll-lock effect as Modal. */
module AlertDialog {
  import opened Wrappers
  import Js

  datatype Variant = Danger | WarningVariant | Info
  datatype ButtonVariant = Primary | Secondary | Ghost | DangerButton | SuccessButton

  const DefaultVariant: Variant := Danger

  datatype AlertProps = AlertProps(open: bool, variant: Variant, description: Option<string>,
                                   loading: bool)

  /** The props Button reads. A prop Button does not know, such as `loading`, is forwarded to
      the native element and changes nothing here. */
  datatype ButtonProps = ButtonProps(variant: ButtonVariant, disabled: bool, isLoading: bool)

  /** What Button renders: whether the native button is disabled and whether it shows its
      spinner. */
  datatype ButtonView = ButtonView(variant: ButtonVariant, disabled: bool, spinner: bool)

  function Button(b: ButtonProps): (v: ButtonView)
    ensures v.disabled <==> b.disabled || b.isLoading
    ensures v.spinner <==> b.isLoading
    ensures v.variant == b.variant
  {
    ButtonView(b.variant, b.disabled || b.isLoading, b.isLoading)
  }

  /** A click on a rendered button reaches its handler only when it is not disabled. */
  predicate ClickRuns(v: ButtonView)
  {
    !v.disabled
  }

  /** The Escape handler's decision. */
  predicate EscapeCloses(loading: bool, key: string)
  {
    key == "Escape" && !loading
  }

  /** The overlay's click decision. */
  predicate OverlayCloses(loading: bool, targetIsOverlay: bool)
  {
    targetIsOverlay && !loading
  }

  /** `confirmVariant`. */
  function ConfirmVariant(v: Variant): (b: ButtonVariant)
    ensures b == DangerButton <==> v == Danger
    ensures b != DangerButton ==> b == Primary
  {
    if v == Danger then DangerButton else Primary
  }

  /** The cancel button: secondary, disabled while loading. */
  function CancelButton(p: AlertProps): (v: ButtonView)
    ensures v.variant == Secondary && (v.disabled <==> p.loading) && !v.spinner
  {
    Button(ButtonProps(Secondary, p.loading, false))
  }

  /** The confirm button as written: `loading` is passed under a name Button does not read. */
  function ConfirmButtonAsWritten(p: AlertProps): (v: ButtonView)
    ensures v.variant == ConfirmVariant(p.variant) && !v.disabled && !v.spinner
  {
    Button(ButtonProps(ConfirmVariant(p.variant), false, false))
  }

  /** As written, a loading dialog still runs `onConfirm` on a second click and shows no
      spinner, while its cancel button is disabled. */
  lemma ConfirmEnabledWhileLoading(variant: Variant)
    ensures var p := AlertProps(true, variant, None, true);
      ClickRuns(ConfirmButtonAsWritten(p)) && !ConfirmButtonAsWritten(p).spinner
      && !ClickRuns(CancelButton(p))
  {
  }

  /** The confirm button with `loading` passed as Button's `isLoading`. */
  function ConfirmButton(p: AlertProps): (v: ButtonView)
    ensures v.variant == ConfirmVariant(p.variant)
    ensures v.disabled <==> p.loading
    ensures v.spinner <==> p.loading
  {
    Button(ButtonProps(ConfirmVariant(p.variant), false, p.loading))
  }

  /** Corrected: while loading, no way of confirming or closing the dialog is left open; when
      not loading, both buttons, Escape and the overlay work. */
  lemma LoadingLocksDialog(p: AlertProps, key: string, targetIsOverlay: bool)
    ensures p.loading ==>
      !ClickRuns(ConfirmButton(p)) && !ClickRuns(CancelButton(p))
      && !EscapeCloses(p.loading, key) && !OverlayCloses(p.loading, targetIsOverlay)
    ensures !p.loading ==>
      ClickRuns(ConfirmButton(p)) && ClickRuns(CancelButton(p))
      && EscapeCloses(p.loading, "Escape") && OverlayCloses(p.loading, true)
  {
  }

  /** The dialog always names `alert-description` in `aria-describedby`; the description
      element exists only for a truthy description. */
  datatype DialogView = DialogView(describedBy: string, description: Option<string>,
                                   cancel: ButtonView, confirm: ButtonView)

  function View(p: AlertProps): (v: Option<DialogView>)
    ensures v.None? <==> !p.open
    ensures v.Some? ==> v.value.describedBy == "alert-description"
    ensures v.Some? ==> (v.value.description.Some? <==> Js.Truthy(p.description))
    ensures v.Some? ==> v.value.cancel == CancelButton(p) && v.value.confirm == ConfirmButton(p)
  {
    if !p.open then None
    else Some(DialogView("alert-description",
                         if Js.Truthy(p.description) then p.description else None,
                         CancelButton(p), ConfirmButton(p)))
  }

  /** One mounted AlertDialog with the keydown listener and body `overflow` its effect
      drives. */
  class AlertDialogState {
    var props: AlertProps
    var listening: bool
    var overflow: string

    /** The effect has run for the current props. */
    predicate Valid()
      reads this
    {
      listening == props.open && (props.open ==> overflow == "hidden")
    }

    /** Mounting runs the effect once. The body keeps the `overflow` it had before,
        `bodyOverflow`, unless the dialog mounts open; no cleanup has run yet. */
    constructor (p: AlertProps, bodyOverflow: string)
      ensures props == p && Valid()
      ensures overflow == (if p.open then "hidden" else bodyOverflow)
    {
      props := p;
      listening := p.open;
      overflow := if p.open then "hidden" else bodyOverflow;
    }

    /** A re-render with new props: cleanup, then the effect again when open. */
    method Rerender(p: AlertProps)
      modifies this
      ensures props == p && Valid()
      ensures overflow == (if p.open then "hidden" else "")
    {
      props := p;
      listening := false;
      overflow := "";
      if p.open {
        listening := true;
        overflow := "hidden";
      }
    }

    /** Unmounting runs the cleanup. */
    method Unmount()
      modifies this`listening, this`overflow
      ensures !listening && overflow == ""
    {
      listening := false;
      overflow := "";
    }

    /** A document keydown through the attached listener. */
    method KeyDown(key: string) returns (closes: bool)
      requires Valid()
      ensures closes <==> props.open && EscapeCloses(props.loading, key)
    {
      closes := listening && key == "Escape" && !props.loading;
    }

    /** A click on the overlay, which exists only while open. */
    method OverlayClick(targetIsOverlay: bool) returns (closes: bool)
      ensures closes <==> props.open && OverlayCloses(props.loading, targetIsOverlay)
    {
      closes := props.open && targetIsOverlay && !props.loading;
    }

    /** The cancel button calls `onClose` when its click goes through. */
    method CancelClick() returns (closes: bool)
      ensures closes <==> props.open && !props.loading
    {
      var v := View(props);
      closes := v.Some? && ClickRuns(v.value.cancel);
    }

    /** The confirm button calls `onConfirm` when its click goes through. */
    method ConfirmClick() returns (confirms: bool)
      ensures confirms <==> props.open && !props.loading
    {
      var v := View(props);
      confirms := v.Some? && ClickRuns(v.value.confirm);
    }
  }
}
