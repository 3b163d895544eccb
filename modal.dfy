/** Modal: the Escape and overlay-click close rules, the keydown listener and body scroll
    lock held only while open, and the dialog's header. `onClose` is the parent's callback,
    so the handlers report whether they call it. */
module Modal {
  import opened Wrappers
  import Js

  datatype ModalProps = ModalProps(open: bool, title: Option<string>, description: Option<string>,
                                   showCloseButton: bool, closeOnOverlayClick: bool,
                                   closeOnEscape: bool)

  const DefaultShowCloseButton: bool := true
  const DefaultCloseOnOverlayClick: bool := true
  const DefaultCloseOnEscape: bool := true

  /** The keydown handler's decision. */
  predicate EscapeCloses(closeOnEscape: bool, key: string)
  {
    closeOnEscape && key == "Escape"
  }

  /** The overlay's click decision: only a click whose target is the overlay itself, not the
      dialog inside it, can close. */
  predicate OverlayCloses(closeOnOverlayClick: bool, targetIsOverlay: bool)
  {
    closeOnOverlayClick && targetIsOverlay
  }

  /** The header: title, description and close button. */
  datatype Header = Header(title: Option<string>, description: Option<string>, closeButton: bool)

  /** The dialog: its `aria-labelledby` and `aria-describedby` targets and its header. */
  datatype DialogView = DialogView(labelledBy: Option<string>, describedBy: Option<string>,
                                   header: Option<Header>)

  const TitleId: string := "modal-title"
  const DescriptionId: string := "modal-description"

  /** The header's content: the title and the description only when truthy. */
  function HeaderOf(p: ModalProps): (h: Header)
    ensures h.title.Some? <==> Js.Truthy(p.title)
    ensures h.description.Some? <==> Js.Truthy(p.description)
    ensures h.title.Some? ==> h.title == p.title
    ensures h.description.Some? ==> h.description == p.description
    ensures h.closeButton == p.showCloseButton
  {
    Header(if Js.Truthy(p.title) then p.title else None,
           if Js.Truthy(p.description) then p.description else None,
           p.showCloseButton)
  }

  /** The dialog as written: nothing when closed; the header only when there is a title or a
      close button, although the description lives inside it. */
  function ViewAsWritten(p: ModalProps): (v: Option<DialogView>)
    ensures v.None? <==> !p.open
    ensures v.Some? ==> (v.value.header.Some? <==> Js.Truthy(p.title) || p.showCloseButton)
    ensures v.Some? ==> (v.value.describedBy.Some? <==> Js.Truthy(p.description))
    ensures v.Some? ==> (v.value.labelledBy.Some? <==> Js.Truthy(p.title))
  {
    if !p.open then None
    else Some(DialogView(if Js.Truthy(p.title) then Some(TitleId) else None,
                         if Js.Truthy(p.description) then Some(DescriptionId) else None,
                         if Js.Truthy(p.title) || p.showCloseButton then Some(HeaderOf(p)) else None))
  }

  /** As written, a description without a title or close button is dropped while
      `aria-describedby` still names its element. */
  lemma DescriptionDroppedAsWritten()
    ensures var v := ViewAsWritten(ModalProps(true, None, Some("Details"), false, true, true)).value;
      v.describedBy == Some(DescriptionId) && v.header.None?
  {
  }

  /** The dialog with the header also rendered for a description. */
  function View(p: ModalProps): (v: Option<DialogView>)
    ensures v.None? <==> !p.open
    ensures v.Some? ==>
      (v.value.header.Some? <==> Js.Truthy(p.title) || Js.Truthy(p.description) || p.showCloseButton)
    ensures v.Some? && v.value.header.Some? ==> v.value.header.value.closeButton == p.showCloseButton
    ensures p.open && !Js.Truthy(p.description) ==> View(p) == ViewAsWritten(p)
  {
    if !p.open then None
    else Some(DialogView(if Js.Truthy(p.title) then Some(TitleId) else None,
                         if Js.Truthy(p.description) then Some(DescriptionId) else None,
                         if Js.Truthy(p.title) || Js.Truthy(p.description) || p.showCloseButton
                         then Some(HeaderOf(p)) else None))
  }

  /** In the corrected dialog every ARIA reference names an element that is rendered, with
      the right text. */
  lemma ReferencesResolve(p: ModalProps)
    requires p.open
    ensures var v := View(p).value;
      (v.describedBy.Some? ==> v.header.Some? && v.header.value.description == p.description)
      && (v.labelledBy.Some? ==> v.header.Some? && v.header.value.title == p.title)
  {
  }

  /** One mounted Modal with the document state its effect drives: whether the keydown
      listener is attached and the body's `overflow` style. */
  class ModalState {
    var props: ModalProps
    var listening: bool
    var overflow: string

    /** The effect has run for the current props. */
    predicate Valid()
      reads this
    {
      listening == props.open && (props.open ==> overflow == "hidden")
    }

    /** Mounting runs the effect once. The body keeps the `overflow` it had before,
        `bodyOverflow`, unless the dialog mounts open; no cleanup has run yet. */
    constructor (p: ModalProps, bodyOverflow: string)
      ensures props == p && Valid()
      ensures overflow == (if p.open then "hidden" else bodyOverflow)
    {
      props := p;
      listening := p.open;
      overflow := if p.open then "hidden" else bodyOverflow;
    }

    /** A re-render with new props: the previous effect's cleanup removes the listener and
        clears `overflow`, then the effect attaches and locks again when open. */
    method Rerender(p: ModalProps)
      modifies this
      ensures props == p && Valid()
      ensures overflow == (if p.open then "hidden" else "")
    {
      props := p;
      listening := false;
      overflow := "";
      if p.open {
        listening := true;
        overflow := "hidden";
      }
    }

    /** Unmounting runs the cleanup. */
    method Unmount()
      modifies this`listening, this`overflow
      ensures !listening && overflow == ""
    {
      listening := false;
      overflow := "";
    }

    /** A document keydown: `onClose` runs only through the attached listener, on Escape,
        when `closeOnEscape`. */
    method KeyDown(key: string) returns (closes: bool)
      requires Valid()
      ensures closes <==> props.open && EscapeCloses(props.closeOnEscape, key)
    {
      closes := listening && props.closeOnEscape && key == "Escape";
    }

    /** A click on the overlay, which exists only while open. */
    method OverlayClick(targetIsOverlay: bool) returns (closes: bool)
      ensures closes <==> props.open && OverlayCloses(props.closeOnOverlayClick, targetIsOverlay)
    {
      var v := View(props);
      closes := v.Some? && props.closeOnOverlayClick && targetIsOverlay;
    }

    /** The header's close button calls `onClose`; it exists only while open with
        `showCloseButton`. */
    method CloseButtonClick() returns (closes: bool)
      ensures closes <==> props.open && props.showCloseButton
    {
      var v := View(props);
      closes := v.Some? && v.value.header.Some? && v.value.header.value.closeButton;
    }
  }
}
