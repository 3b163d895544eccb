/** The controlled/uncontrolled rule shared by Slider, Select, Tabs, ColorPicker, Dropdown and
    Popover: a defined external prop wins over the component's internal state, and a user
    action writes the internal state only when there is no external prop. */
module Controlled {
  import opened Wrappers

  /** The value the component renders. */
  function Effective<T>(external: Option<T>, internal: T): (r: T)
    ensures external.Some? ==> r == external.value
    ensures external.None? ==> r == internal
  {
    if external.Some? then external.value else internal
  }

  /** The internal state after a user action proposing `next`. Afterwards the component
      shows `next` exactly when it is uncontrolled, and a controlled component keeps both its
      internal state and what it shows. */
  function NextInternal<T>(external: Option<T>, internal: T, next: T): (r: T)
    ensures external.None? ==> Effective(external, r) == next
    ensures external.Some? ==> r == internal && Effective(external, r) == external.value
  {
    if external.None? then next else internal
  }
}
