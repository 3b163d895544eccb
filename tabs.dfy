/** Tabs: the active tab resolved from the `value` prop or internal state, `setActiveTab`,
    each Tab's selection and focus order, each TabPanel's visibility, and the error thrown
    outside a Tabs provider. */
module Tabs {
  import opened Wrappers
  import Js
  import Controlled

  datatype Variant = Default | Pills | Underline

  /** What a Tabs root provides to its descendants. */
  datatype Context = Context(activeTab: string, variant: Variant)

  const MissingProviderMessage: string := "Tabs components must be used within a Tabs provider"

  /** `useTabsContext`: the provided context, or the error it throws when there is none. */
  function UseTabsContext(ctx: Option<Context>): (r: Result<Context>)
    ensures r.Ok? <==> ctx.Some?
    ensures r.Ok? ==> r.value == ctx.value
    ensures r.Err? ==> r.message == MissingProviderMessage
  {
    if ctx.None? then Err(MissingProviderMessage) else Ok(ctx.value)
  }

  /** The props of one Tab. */
  datatype TabProps = TabProps(value: string, disabled: bool)

  /** What a Tab renders: `aria-selected`, `tabIndex`, `aria-controls` and `disabled`. */
  datatype TabView = TabView(selected: bool, tabIndex: int, controls: string, disabled: bool)

  const PanelPrefix: string := "panel-"

  function TabOf(ctx: Option<Context>, t: TabProps): (r: Result<TabView>)
    ensures r.Err? <==> ctx.None?
    ensures r.Ok? ==> (r.value.selected <==> ctx.value.activeTab == t.value)
    ensures r.Ok? ==> (r.value.tabIndex == 0 <==> r.value.selected)
    ensures r.Ok? ==> (r.value.tabIndex == -1 <==> !r.value.selected)
    ensures r.Ok? ==> r.value.controls == PanelPrefix + t.value && r.value.disabled == t.disabled
  {
    var c := UseTabsContext(ctx);
    if c.Err? then Err(c.message)
    else
      var active := c.value.activeTab == t.value;
      Ok(TabView(active, if active then 0 else -1, PanelPrefix + t.value, t.disabled))
  }

  /** What a TabPanel renders: its `id`, whether it is `hidden`, and whether its children are
      rendered. */
  datatype PanelView = PanelView(id: string, hidden: bool, childrenRendered: bool)

  function PanelOf(ctx: Option<Context>, value: string): (r: Result<PanelView>)
    ensures r.Err? <==> ctx.None?
    ensures r.Ok? ==> (r.value.hidden <==> ctx.value.activeTab != value)
    ensures r.Ok? ==> (r.value.childrenRendered <==> !r.value.hidden)
    ensures r.Ok? ==> r.value.id == PanelPrefix + value
  {
    var c := UseTabsContext(ctx);
    if c.Err? then Err(c.message)
    else
      var active := c.value.activeTab == value;
      Ok(PanelView(PanelPrefix + value, !active, active))
  }

  /** A Tab's `aria-controls` names a TabPanel's `id` exactly when both carry the same value. */
  lemma ControlsMatchesPanel(ctx: Context, t: TabProps, value: string)
    ensures TabOf(Some(ctx), t).value.controls == PanelOf(Some(ctx), value).value.id <==> t.value == value
  {
    if PanelPrefix + t.value == PanelPrefix + value {
      assert t.value == (PanelPrefix + t.value)[|PanelPrefix|..];
      assert value == (PanelPrefix + value)[|PanelPrefix|..];
    }
  }

  /** A Tab is selected exactly when the panel with the same value is shown. */
  lemma TabAndPanelAgree(ctx: Context, t: TabProps)
    ensures TabOf(Some(ctx), t).value.selected <==> !PanelOf(Some(ctx), t.value).value.hidden
  {
  }

  function CountSelected(values: seq<string>, active: string): nat
  {
    if values == [] then 0
    else (if values[0] == active then 1 else 0) + CountSelected(values[1..], active)
  }

  predicate Distinct(values: seq<string>)
  {
    forall i, j :: 0 <= i < j < |values| ==> values[i] != values[j]
  }

  /** Among tabs with distinct values at most one is selected, and exactly one when the
      active tab is among them. */
  lemma {:induction false} AtMostOneSelected(values: seq<string>, active: string)
    requires Distinct(values)
    ensures CountSelected(values, active) <= 1
    ensures CountSelected(values, active) == 1 <==> active in values
  {
    if values != [] {
      AtMostOneSelected(values[1..], active);
      if values[0] == active {
        assert active !in values[1..] by {
          forall k | 0 <= k < |values[1..]|
            ensures values[1..][k] != active
          {
            assert values[1..][k] == values[k + 1];
          }
        }
      }
      assert values == [values[0]] + values[1..];
    }
  }

  /** The state one mounted Tabs root keeps. */
  class TabsState {
    var internalValue: string

    /** Starts at `defaultValue || ''`. */
    constructor (defaultValue: Option<string>)
      ensures internalValue == (if Js.Truthy(defaultValue) then defaultValue.value else "")
    {
      internalValue := if Js.Truthy(defaultValue) then defaultValue.value else "";
    }

    /** `activeTab` for the `value` prop `value`. */
    function ActiveTab(value: Option<string>): string
      reads this
    {
      Controlled.Effective(value, internalValue)
    }

    /** `setActiveTab(v)`: the internal value follows only when uncontrolled, and the
        returned `onValueChange` argument is always `v`. */
    method SetActiveTab(value: Option<string>, v: string) returns (changed: string)
      modifies this
      ensures changed == v
      ensures internalValue == Controlled.NextInternal(value, old(internalValue), v)
      ensures value.None? ==> ActiveTab(value) == v
      ensures value.Some? ==> ActiveTab(value) == old(ActiveTab(value))
    {
      if value.None? {
        internalValue := v;
      }
      changed := v;
    }

    /** A click on a Tab: a disabled button fires no click, so nothing changes; an enabled
        one calls `setActiveTab` with its value. */
    method ClickTab(value: Option<string>, t: TabProps) returns (changed: Option<string>)
      modifies this
      ensures t.disabled ==> changed.None? && internalValue == old(internalValue)
      ensures !t.disabled ==>
        changed == Some(t.value)
        && internalValue == Controlled.NextInternal(value, old(internalValue), t.value)
      ensures !t.disabled && value.None? ==>
        TabOf(Some(Context(ActiveTab(value), Default)), t).value.selected
    {
      if t.disabled {
        return None;
      }
      var v := SetActiveTab(value, t.value);
      changed := Some(v);
    }
  }
}
