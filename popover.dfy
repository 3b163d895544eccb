/** Popover: the same open machine as Dropdown (controlled `open` or internal state, the
    `setOpen` mutator, trigger toggle, Escape and outside-pointer close with open-only
    listeners), plus the close button and which parts of the panel are rendered. */
module Popover {
  import opened Wrappers
  import Js
  import Controlled

  /** The props the machine and the panel read. */
  datatype Props = Props(open: Option<bool>, title: Option<string>, showArrow: bool,
                         showCloseButton: bool)

  const DefaultShowArrow: bool := true
  const DefaultShowCloseButton: bool := true

  /** A callback invocation: the trigger element's own `onClick`, or `onOpenChange`. */
  datatype Call = TriggerOnClick | OnOpenChange(open: bool)

  /** The header row: the title when it is truthy, and the close button when enabled. */
  datatype Header = Header(title: Option<string>, closeButton: bool)

  /** What is rendered next to the trigger. */
  datatype View = Hidden | Panel(arrow: bool, header: Option<Header>)

  /** The panel for props `p` and open state `isOpen`. */
  function ViewOf(p: Props, isOpen: bool): (v: View)
    ensures v.Hidden? <==> !isOpen
    ensures v.Panel? ==> (v.arrow <==> p.showArrow)
    ensures v.Panel? ==> (v.header.Some? <==> Js.Truthy(p.title) || p.showCloseButton)
    ensures v.Panel? && v.header.Some? ==>
      (v.header.value.title.Some? <==> Js.Truthy(p.title))
      && (v.header.value.title.Some? ==> v.header.value.title == p.title)
      && (v.header.value.closeButton <==> p.showCloseButton)
  {
    if !isOpen then Hidden
    else
      var header := if Js.Truthy(p.title) || p.showCloseButton
        then Some(Header(if Js.Truthy(p.title) then p.title else None, p.showCloseButton))
        else None;
      Panel(p.showArrow, header)
  }

  /** With the defaults an open Popover always has an arrow and a header holding the close
      button, whatever the title. */
  lemma DefaultsShowArrowAndClose(title: Option<string>)
    ensures ViewOf(Props(None, title, DefaultShowArrow, DefaultShowCloseButton), true)
      == Panel(true, Some(Header(if Js.Truthy(title) then title else None, true)))
  {
  }

  /** The state one mounted Popover keeps, with the props of the latest render; `listening`
      records whether the `mousedown` and `keydown` document listeners are attached. Their
      effects list only `isOpen` as a dependency, so the listeners keep the `setOpen` of the
      render in which `isOpen` last changed: `listenerOpen` is the `open` prop that `setOpen`
      closes over. Every method ends with the effect that runs after the re-render. */
  class PopoverState {
    var props: Props
    var internalOpen: bool
    var listening: bool
    var listenerOpen: Option<bool>

    /** The listeners are attached exactly while the panel is open. */
    ghost predicate Valid()
      reads this
    {
      listening == IsOpen()
    }

    /** `isOpen`: the controlled `open` when defined, else the internal state. */
    function IsOpen(): bool
      reads this
    {
      Controlled.Effective(props.open, internalOpen)
    }

    /** What is currently rendered. */
    function Current(): View
      reads this
    {
      ViewOf(props, IsOpen())
    }

    constructor (p: Props)
      ensures props == p && !internalOpen && listenerOpen == p.open && Valid()
      ensures IsOpen() == (p.open == Some(true))
    {
      props := p;
      internalOpen := false;
      listening := p.open == Some(true);
      listenerOpen := p.open;
    }

    /** The `[isOpen]` effects after a render: they re-run, taking the render's `setOpen`,
        only when `isOpen` differs from the value they last ran with. */
    method Effects(wasOpen: bool)
      modifies this`listening, this`listenerOpen
      ensures Valid()
      ensures listenerOpen == (if IsOpen() != wasOpen then props.open else old(listenerOpen))
    {
      if IsOpen() != wasOpen {
        listenerOpen := props.open;
      }
      listening := IsOpen();
    }

    /** A re-render with new props, followed by the listener effects. */
    method Rerender(p: Props)
      modifies this
      ensures props == p && internalOpen == old(internalOpen) && Valid()
      ensures listenerOpen == (if IsOpen() != old(IsOpen()) then p.open else old(listenerOpen))
    {
      var wasOpen := IsOpen();
      props := p;
      Effects(wasOpen);
    }

    /** `setOpen(v)` of the current render: the internal state follows only when
        uncontrolled, and `onOpenChange(v)` is always called. */
    method SetOpen(v: bool) returns (calls: seq<Call>)
      modifies this`internalOpen, this`listening, this`listenerOpen
      ensures internalOpen == Controlled.NextInternal(props.open, old(internalOpen), v)
      ensures calls == [OnOpenChange(v)] && Valid()
      ensures props.open.None? ==> IsOpen() == v
      ensures props.open.Some? ==> IsOpen() == old(IsOpen())
      ensures listenerOpen == (if IsOpen() != old(IsOpen()) then props.open else old(listenerOpen))
    {
      var wasOpen := IsOpen();
      if props.open.None? {
        internalOpen := v;
      }
      calls := [OnOpenChange(v)];
      Effects(wasOpen);
    }

    /** The `setOpen(false)` an attached listener calls: it decides by the `open` prop of
        the render it was taken from, which may be older than the current one. */
    method ListenerClose() returns (calls: seq<Call>)
      modifies this`internalOpen, this`listening, this`listenerOpen
      ensures internalOpen == Controlled.NextInternal(old(listenerOpen), old(internalOpen), false)
      ensures calls == [OnOpenChange(false)] && Valid()
      ensures listenerOpen == (if IsOpen() != old(IsOpen()) then props.open else old(listenerOpen))
    {
      var wasOpen := IsOpen();
      if listenerOpen.None? {
        internalOpen := false;
      }
      calls := [OnOpenChange(false)];
      Effects(wasOpen);
    }

    /** The trigger's click: its own `onClick` first, then `setOpen(!isOpen)`. */
    method TriggerClick() returns (calls: seq<Call>)
      modifies this`internalOpen, this`listening, this`listenerOpen
      ensures internalOpen == Controlled.NextInternal(props.open, old(internalOpen), !old(IsOpen()))
      ensures calls == [TriggerOnClick, OnOpenChange(!old(IsOpen()))] && Valid()
      ensures props.open.None? ==> IsOpen() == !old(IsOpen())
      ensures listenerOpen == (if IsOpen() != old(IsOpen()) then props.open else old(listenerOpen))
    {
      var change := SetOpen(!IsOpen());
      calls := [TriggerOnClick] + change;
    }

    /** The close button, which exists only in an open panel with `showCloseButton`, calls
        the current render's `setOpen(false)`. */
    method CloseButtonClick() returns (calls: seq<Call>)
      modifies this`internalOpen, this`listening, this`listenerOpen
      requires Valid()
      ensures Valid()
      ensures old(IsOpen()) && props.showCloseButton ==>
        calls == [OnOpenChange(false)]
        && internalOpen == Controlled.NextInternal(props.open, old(internalOpen), false)
        && listenerOpen == (if IsOpen() != old(IsOpen()) then props.open else old(listenerOpen))
      ensures !(old(IsOpen()) && props.showCloseButton) ==>
        calls == [] && internalOpen == old(internalOpen) && listenerOpen == old(listenerOpen)
    {
      calls := [];
      var v := Current();
      if v.Panel? && v.header.Some? && v.header.value.closeButton {
        calls := SetOpen(false);
      }
    }

    /** A document `keydown`: with the listener attached, Escape calls the listener's
        `setOpen(false)`. */
    method KeyDown(key: string) returns (calls: seq<Call>)
      requires Valid()
      modifies this`internalOpen, this`listening, this`listenerOpen
      ensures Valid()
      ensures old(IsOpen()) && key == "Escape" ==>
        calls == [OnOpenChange(false)]
        && internalOpen == Controlled.NextInternal(old(listenerOpen), old(internalOpen), false)
        && listenerOpen == (if IsOpen() != old(IsOpen()) then props.open else old(listenerOpen))
      ensures !(old(IsOpen()) && key == "Escape") ==>
        calls == [] && internalOpen == old(internalOpen) && listenerOpen == old(listenerOpen)
    {
      calls := [];
      if listening && key == "Escape" {
        calls := ListenerClose();
      }
    }

    /** A document `mousedown`: with the listener attached, a press outside the wrapper calls
        the listener's `setOpen(false)`. */
    method PointerDown(inside: bool) returns (calls: seq<Call>)
      requires Valid()
      modifies this`internalOpen, this`listening, this`listenerOpen
      ensures Valid()
      ensures old(IsOpen()) && !inside ==>
        calls == [OnOpenChange(false)]
        && internalOpen == Controlled.NextInternal(old(listenerOpen), old(internalOpen), false)
        && listenerOpen == (if IsOpen() != old(IsOpen()) then props.open else old(listenerOpen))
      ensures !(old(IsOpen()) && !inside) ==>
        calls == [] && internalOpen == old(internalOpen) && listenerOpen == old(listenerOpen)
    {
      calls := [];
      if listening && !inside {
        calls := ListenerClose();
      }
    }
  }
}
