/** Dropdown: the open state resolved from the `open` prop or internal state, the `setOpen`
    mutator, the trigger toggle and the Escape / outside-pointer close, whose document
    listeners exist only while the menu is open. */
module Dropdown {
  import opened Wrappers
  import Controlled

  /** A callback invocation: the trigger element's own `onClick`, or `onOpenChange`. */
  datatype Call = TriggerOnClick | OnOpenChange(open: bool)

  /** The state one mounted Dropdown keeps, with the `open` prop of the latest render. The
      `mousedown` and `keydown` document listeners are attached and removed together, so one
      field records whether they are attached. Their effects list only `isOpen` as a
      dependency, so the listeners keep the `setOpen` of the render in which `isOpen` last
      changed: `listenerOpen` is the `open` prop that `setOpen` closes over. Every method
      ends with the effect that runs after the re-render. */
  class DropdownState {
    var open: Option<bool>
    var internalOpen: bool
    var listening: bool
    var listenerOpen: Option<bool>

    /** The listeners are attached exactly while the menu is open. */
    ghost predicate Valid()
      reads this
    {
      listening == IsOpen()
    }

    /** `isOpen`: the controlled `open` when defined, else the internal state. The menu and
        `aria-expanded` both follow it. */
    function IsOpen(): bool
      reads this
    {
      Controlled.Effective(open, internalOpen)
    }

    /** Mounts closed unless `open` says otherwise; the effects run for the first render. */
    constructor (open: Option<bool>)
      ensures this.open == open && !internalOpen && listenerOpen == open && Valid()
      ensures IsOpen() == (open == Some(true))
    {
      this.open := open;
      internalOpen := false;
      listening := open == Some(true);
      listenerOpen := open;
    }

    /** The `[isOpen]` effects after a render: they re-run, taking the render's `setOpen`,
        only when `isOpen` differs from the value they last ran with. */
    method Effects(wasOpen: bool)
      modifies this`listening, this`listenerOpen
      ensures Valid()
      ensures listenerOpen == (if IsOpen() != wasOpen then open else old(listenerOpen))
    {
      if IsOpen() != wasOpen {
        listenerOpen := open;
      }
      listening := IsOpen();
    }

    /** A re-render with a new `open` prop, followed by the listener effects. */
    method Rerender(open: Option<bool>)
      modifies this
      ensures this.open == open && internalOpen == old(internalOpen) && Valid()
      ensures listenerOpen == (if IsOpen() != old(IsOpen()) then open else old(listenerOpen))
    {
      var wasOpen := IsOpen();
      this.open := open;
      Effects(wasOpen);
    }

    /** `setOpen(v)` of the current render: the internal state follows only when
        uncontrolled, and `onOpenChange(v)` is always called. A controlled Dropdown keeps
        showing what its prop says. */
    method SetOpen(v: bool) returns (calls: seq<Call>)
      modifies this`internalOpen, this`listening, this`listenerOpen
      ensures internalOpen == Controlled.NextInternal(open, old(internalOpen), v)
      ensures calls == [OnOpenChange(v)] && Valid()
      ensures open.None? ==> IsOpen() == v
      ensures open.Some? ==> IsOpen() == old(IsOpen())
      ensures listenerOpen == (if IsOpen() != old(IsOpen()) then open else old(listenerOpen))
    {
      var wasOpen := IsOpen();
      if open.None? {
        internalOpen := v;
      }
      calls := [OnOpenChange(v)];
      Effects(wasOpen);
    }

    /** The `setOpen(false)` an attached listener calls: it decides by the `open` prop of
        the render it was taken from, which may be older than the current one. */
    method ListenerClose() returns (calls: seq<Call>)
      modifies this`internalOpen, this`listening, this`listenerOpen
      ensures internalOpen == Controlled.NextInternal(old(listenerOpen), old(internalOpen), false)
      ensures calls == [OnOpenChange(false)] && Valid()
      ensures listenerOpen == (if IsOpen() != old(IsOpen()) then open else old(listenerOpen))
    {
      var wasOpen := IsOpen();
      if listenerOpen.None? {
        internalOpen := false;
      }
      calls := [OnOpenChange(false)];
      Effects(wasOpen);
    }

    /** The trigger's click: its own `onClick` first, then `setOpen(!isOpen)`. */
    method TriggerClick() returns (calls: seq<Call>)
      modifies this`internalOpen, this`listening, this`listenerOpen
      ensures internalOpen == Controlled.NextInternal(open, old(internalOpen), !old(IsOpen()))
      ensures calls == [TriggerOnClick, OnOpenChange(!old(IsOpen()))] && Valid()
      ensures open.None? ==> IsOpen() == !old(IsOpen())
      ensures listenerOpen == (if IsOpen() != old(IsOpen()) then open else old(listenerOpen))
    {
      var change := SetOpen(!IsOpen());
      calls := [TriggerOnClick] + change;
    }

    /** A document `keydown`: with the listener attached, Escape calls the listener's
        `setOpen(false)`; any other key, or any key while closed, does nothing. */
    method KeyDown(key: string) returns (calls: seq<Call>)
      requires Valid()
      modifies this`internalOpen, this`listening, this`listenerOpen
      ensures Valid()
      ensures old(IsOpen()) && key == "Escape" ==>
        calls == [OnOpenChange(false)]
        && internalOpen == Controlled.NextInternal(old(listenerOpen), old(internalOpen), false)
        && listenerOpen == (if IsOpen() != old(IsOpen()) then open else old(listenerOpen))
      ensures !(old(IsOpen()) && key == "Escape") ==>
        calls == [] && internalOpen == old(internalOpen) && listenerOpen == old(listenerOpen)
    {
      calls := [];
      if listening && key == "Escape" {
        calls := ListenerClose();
      }
    }

    /** A document `mousedown`: with the listener attached, a press outside the wrapper calls
        the listener's `setOpen(false)`; otherwise nothing happens. */
    method PointerDown(inside: bool) returns (calls: seq<Call>)
      requires Valid()
      modifies this`internalOpen, this`listening, this`listenerOpen
      ensures Valid()
      ensures old(IsOpen()) && !inside ==>
        calls == [OnOpenChange(false)]
        && internalOpen == Controlled.NextInternal(old(listenerOpen), old(internalOpen), false)
        && listenerOpen == (if IsOpen() != old(IsOpen()) then open else old(listenerOpen))
      ensures !(old(IsOpen()) && !inside) ==>
        calls == [] && internalOpen == old(internalOpen) && listenerOpen == old(listenerOpen)
    {
      calls := [];
      if listening && !inside {
        calls := ListenerClose();
      }
    }
  }

  /** Opened by its trigger while uncontrolled and then given `open={true}`, a Dropdown keeps
      listeners from the uncontrolled render, as `isOpen` did not change. Escape then clears
      the internal state and reports the close, while the menu stays open. */
  method StaleListenerExample() returns (calls: seq<Call>, internal: bool, shown: bool)
    ensures calls == [OnOpenChange(false)] && !internal && shown
  {
    var d := new DropdownState(None);
    var _ := d.TriggerClick();
    d.Rerender(Some(true));
    calls := d.KeyDown("Escape");
    internal, shown := d.internalOpen, d.IsOpen();
  }
}
