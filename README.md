# A verified model of a React component library's behavioural core

This project models in Dafny the rules inside a React presentational component library.
The markup and class-name plumbing is left aside; what stays is every rule that decides what
a component shows or how it reacts to an event:

- **Value resolution and overlay machines.** Slider, Select, Tabs, ColorPicker, Dropdown and
  Popover resolve their value the same way. A defined prop wins over an internal fallback. A
  user action always reports the change, and updates the internal state only when
  uncontrolled (module `Controlled`). Select, Dropdown, Popover and ColorPicker open and
  close on a trigger and close on an outside press; Select, Dropdown and Popover also close
  on Escape. Dropdown, Popover and ColorPicker hold their document listeners only while
  open; Select's outside-press listener lives as long as the component. Modal and
  AlertDialog follow their `open` prop, close on Escape and on an overlay click, and hold
  the keydown listener and the body scroll lock only while open.
- **Pure derivations.** Breadcrumb truncation and rendering, avatar initials and the avatar
  stack, the colour input validator and hex parser, the Slider key step, rounding and clamp,
  the Progress clamp, the TextArea limit flags, the field error/helper precedence, FileCard
  image detection and meta separators, FolderCard pluralisation and colour class, and the
  Skeleton placeholders.
- **The `useTheme` hook.** The initial theme is read from storage with a fallback. Set and
  toggle change it, and an effect persists it and writes the root attribute after every
  change.

One Dafny module per source file. Components whose state the source updates in place are
classes with `modifies` clauses, one method per event handler, and each handler ends with
the effect React runs after the re-render. Props are datatypes. A callback is modelled as
the list of calls a handler makes (`seq<Call>`) or as a boolean saying whether the parent's
`onClose`/`onConfirm` is called. Small shared modules model JavaScript semantics the
components rely on:

- `Js`: truthiness of optional strings and `Array.prototype.slice` index rules.
- `Ascii`: `\s`, `trim` and case mapping, over ASCII.
- `Decimal`: integer-to-string conversion, with a parse-back round trip.
- `Wrappers`: `Option` and `Result`.

## Model

| member | source | states |
|---|---|---|
| Js.Truthy | src/components/Breadcrumb/Breadcrumb.tsx:76-100 | An optional string prop is truthy only when defined, and then exactly when it is non-empty. |
| Js.Slice | src/components/Breadcrumb/Breadcrumb.tsx:65 | `slice(start, end)` is never longer than the source. In-range arguments give exactly `s[start..end]`, a negative start with an end past the length gives the last `-start` elements, and an end past the length gives everything from `start`. |
| Js.SliceElements | src/components/Breadcrumb/Breadcrumb.tsx:65 | In general `slice(start, end)` has `max(0, b - a)` elements, where `a` and `b` are the arguments made relative to the length, and its `k`-th element is the source element at `a + k`. |
| Controlled.Effective | src/components/Slider/Slider.tsx:61 | The displayed value is the prop when it is defined and the internal value otherwise. |
| Controlled.NextInternal | src/components/Dropdown/Dropdown.tsx:41-46 | After a user action the displayed value is the new one exactly when uncontrolled; a controlled component keeps its internal value unchanged. |
| Breadcrumb.Truncate | src/components/Breadcrumb/Breadcrumb.tsx:56-68 | The ellipsis is shown iff `0 < maxItems < n`. Otherwise the items are shown unchanged. With `maxItems >= 2` the display is the first item followed by the last `maxItems-1`, so it has exactly `maxItems` items. With `maxItems == 1`, `slice(-0)` keeps the whole list, so the display is the first item followed by all items. |
| Breadcrumb.DefaultNeverTruncates | src/components/Breadcrumb/Breadcrumb.tsx:56 | The default `maxItems` of 0 never truncates. |
| Breadcrumb.TruncateExample | src/components/Breadcrumb/Breadcrumb.tsx:63-67 | Six items A..F with `maxItems` 3 display A, E, F with the ellipsis. |
| Breadcrumb.LinkOf | src/components/Breadcrumb/Breadcrumb.tsx:101-103 | An item is a link iff it has a truthy `href` or an `onClick`; the link's target falls back to `#`. |
| Breadcrumb.Click | src/components/Breadcrumb/Breadcrumb.tsx:105-110 | Clicking runs the handler iff the item has `onClick` (navigation prevented); otherwise a link navigates to its `href`, and a plain label does nothing. |
| Breadcrumb.RenderItem | src/components/Breadcrumb/Breadcrumb.tsx:76-100 | One displayed item renders as its entry alone when first, a separator and the ellipsis before it at index 1 when truncating, and a separator before it otherwise. The entry is last and is current iff its item is the last. |
| Breadcrumb.Render | src/components/Breadcrumb/Breadcrumb.tsx:76-100 | The rendered list is empty iff there are no displayed items. |
| Breadcrumb.RenderCounts | src/components/Breadcrumb/Breadcrumb.tsx:76-122 | The rendered list holds every displayed item once and in order. The ellipsis appears once when truncating and never otherwise. There is one separator per item after the first, plus one before the ellipsis. Exactly one element, the last item, is marked current. |
| Breadcrumb.PrefixEntries | src/components/Breadcrumb/Breadcrumb.tsx:76-122 | The elements rendered for any prefix of the displayed items hold exactly that prefix's items, in order. |
| Breadcrumb.PrefixCounts | src/components/Breadcrumb/Breadcrumb.tsx:76-122 | The ellipsis, separator and current-item counts for the elements rendered for any prefix of the displayed items. |
| Breadcrumb.ItemCounts | src/components/Breadcrumb/Breadcrumb.tsx:77-100 | What one displayed item contributes: its entry, the ellipsis at index 1 when truncating, a separator unless first, the current mark when last. |
| Breadcrumb.EntriesFollowSeparators | src/components/Breadcrumb/Breadcrumb.tsx:94-100 | The list opens with the first item and ends with an item, and every item after the first directly follows a separator. |
| Breadcrumb.EllipsisPlacement | src/components/Breadcrumb/Breadcrumb.tsx:79-98 | When truncating, the list opens with first item, separator, ellipsis, separator, and then the displayed item at index 1. |
| Breadcrumb.PrefixExtends | src/components/Breadcrumb/Breadcrumb.tsx:76 | Rendering more items only appends elements. |
| Breadcrumb.TruncatedRender | src/components/Breadcrumb/Breadcrumb.tsx:63-122 | Truncating any list longer than the limit renders exactly one ellipsis and exactly one current item. |
| Ascii.Trim | src/components/Avatar/Avatar.tsx:28 | `trim()` gives a slice of the text that neither starts nor ends with whitespace, with only whitespace cut on either side; it is empty iff the text is all whitespace. |
| Ascii.TrimOfTrimmed | src/components/Avatar/Avatar.tsx:28 | Trimming leaves trimmed text unchanged, so trimming is idempotent. |
| Avatar.Split | src/components/Avatar/Avatar.tsx:28 | `split(/\s+/)` always yields at least one piece, and a text without whitespace yields itself. |
| Avatar.SplitWords | src/components/Avatar/Avatar.tsx:28 | On trimmed non-empty text every piece is a non-empty word without whitespace. |
| Avatar.SplitEnds | src/components/Avatar/Avatar.tsx:28 | On trimmed text the first piece starts the text. There are two or more pieces iff the text has whitespace, and then the last piece is what follows the last whitespace. |
| Avatar.InitialsOfTrimmed | src/components/Avatar/Avatar.tsx:28-32 | On already trimmed text the initials have at most two characters and are empty iff the text is empty. |
| Avatar.InitialsOfSeveral | src/components/Avatar/Avatar.tsx:28-32 | Trimmed text with whitespace gives two initials: the uppercased first character and the uppercased character after the last whitespace. |
| Avatar.FirstAndLastWords | src/components/Avatar/Avatar.tsx:28 | On trimmed text with whitespace there are two or more words. The first word starts the text, and the last word starts right after the last whitespace. |
| Avatar.InitialsOfFirstAndLast | src/components/Avatar/Avatar.tsx:32 | With two or more non-empty words the initials are the uppercased first letters of the first and the last word. |
| Avatar.InitialsOfSingle | src/components/Avatar/Avatar.tsx:29-31 | Trimmed non-empty text without whitespace gives its first two characters (or one, if that is all), uppercased. |
| Avatar.Initials | src/components/Avatar/Avatar.tsx:27-33 | Initials have at most two characters and are empty exactly for a whitespace-only name. |
| Avatar.InitialsOfWords | src/components/Avatar/Avatar.tsx:29-32 | A single word gives its first two characters uppercased. Several words give the uppercased first letters of the first and the last word, ignoring middle words. |
| Avatar.InitialsOfFirstLast | src/components/Avatar/Avatar.tsx:28-32 | A first and a last word, without whitespace and separated by one space, give the uppercased first letter of each. |
| Avatar.InitialsOfOneWord | src/components/Avatar/Avatar.tsx:29-31 | "Bob" gives "BO". |
| Avatar.InitialsOfTwoWords | src/components/Avatar/Avatar.tsx:32 | "Jane Smith" gives "JS". |
| Avatar.ContentOf | src/components/Avatar/Avatar.tsx:64-96 | The image is shown iff `src` is truthy and no load error occurred. Otherwise the initials are shown if non-empty, else the fallback icon; a whitespace-only name gives the icon. |
| Avatar.AvatarInstance.constructor | src/components/Avatar/Avatar.tsx:62 | A new avatar has no image error. |
| Avatar.AvatarInstance.OnError | src/components/Avatar/Avatar.tsx:88 | After a load error the image is never shown again, whatever the props. |
| Avatar.StackedAvatars | src/components/Avatar/Avatar.tsx:139-149 | The method reverses a copy of the first `max` avatars in place in an array. It returns the reversal of `slice(0, max)`, `min(max, n)` avatars, and leaves the caller's array untouched. |
| Avatar.StackOrder | src/components/Avatar/Avatar.tsx:139-149 | The stack shows the first `max` avatars, the last of them first. |
| Avatar.OverflowBadge | src/components/Avatar/Avatar.tsx:140-147 | The `+n` badge is shown iff there are more avatars than `max`, and then it reads `+` and the number left over. |
| Avatar.StackAccountsForAll | src/components/Avatar/Avatar.tsx:139-149 | The avatars shown plus the number on the badge add up to the whole list. |
| Avatar.ReversedTwice | src/components/Avatar/Avatar.tsx:149 | Reversing twice gives the original order. |
| Slider.KeyTarget | src/components/Slider/Slider.tsx:129-150 | A key moves the value iff it is an arrow, Home or End. Home gives `min` and End gives `max`. From any value, in range or not, ArrowRight/Up give the smaller of `max` and `cur + step`, and ArrowLeft/Down the larger of `min` and `cur - step`. |
| Slider.ArrowMovesByStep | src/components/Slider/Slider.tsx:131-139 | ArrowRight/Up move up by exactly `step`, and ArrowLeft/Down down by exactly `step`, unless that would cross a bound, and then they stop at the bound. |
| Slider.KeyStaysInRange | src/components/Slider/Slider.tsx:134-144 | From a value in `[min, max]` every key result stays in `[min, max]`. |
| Slider.ArrowRightExample | src/components/Slider/Slider.tsx:131-134 | From 50 with step 10, ArrowRight gives 60. |
| Slider.RoundedSteps | src/components/Slider/Slider.tsx:73 | `Math.round(raw / step)` as an integer `q` with `q*step` within half a step of `raw`, halves rounding up. |
| Slider.RoundToStep | src/components/Slider/Slider.tsx:73 | The rounded value is a multiple of `step` and the nearest to `raw`. |
| Slider.RoundExamples | src/components/Slider/Slider.tsx:73 | 23 → 25 and 22 → 20 with step 5; 25 → 30 and -25 → -20 with step 10 (halves towards positive infinity). |
| Slider.Clamp | src/components/Slider/Slider.tsx:74 | The result lies in `[min, max]`, is the identity inside it, and is the nearer bound outside it. |
| Slider.PositionValue | src/components/Slider/Slider.tsx:67-75 | Without a mounted track the value is unchanged. Otherwise it is the clamp of the multiple of `step` nearest the raw position value. A rounded value at or past a bound gives that bound. When `min > max` the result is `max`, as `Math.min(max, Math.max(min, v))` gives. |
| Slider.SliderState.constructor | src/components/Slider/Slider.tsx:57 | The internal value is seeded from `defaultValue`, not dragging. |
| Slider.SliderState.KeyDown | src/components/Slider/Slider.tsx:126-157 | Disabled, or a key the slider ignores: nothing is prevented, called or changed. Otherwise the default is prevented and the internal value follows only when uncontrolled. `onChange` and then `onChangeEnd` get the key's target. |
| Slider.SliderState.DragStart | src/components/Slider/Slider.tsx:78-91 | Disabled: nothing is prevented, changed or called. Otherwise the default is prevented, dragging starts and `onChange` gets the position value, which the internal value takes only when uncontrolled. |
| Slider.SliderState.DragMove | src/components/Slider/Slider.tsx:94-105 | Only while dragging: `onChange` gets the position value, which the internal value takes only when uncontrolled. |
| Slider.SliderState.DragEnd | src/components/Slider/Slider.tsx:107-110 | Only while dragging: dragging stops and `onChangeEnd` gets the current value. |
| Select.FindIndex | src/components/Select/Select.tsx:62 | `find` stops at the first option with the current value, or reports that none has it. |
| Select.SelectedOption | src/components/Select/Select.tsx:62 | The selected option is absent iff no option has the current value, and otherwise has that value. |
| Select.Trigger | src/components/Select/Select.tsx:134-135 | The placeholder is shown iff no option has the current value; otherwise the trigger shows the label of an option with that value. |
| Select.FirstDuplicateWins | src/components/Select/Select.tsx:62 | With two options sharing a value, the first one's label is shown. |
| Select.KeyTransition | src/components/Select/Select.tsx:81-96 | Enter and Space toggle and prevent the default. Escape closes. ArrowDown opens (and leaves an open list open) and prevents the default. Other keys change nothing. |
| Select.KeyAlgebra | src/components/Select/Select.tsx:81-96 | Enter twice returns to the start; Escape and ArrowDown are idempotent. |
| Select.List | src/components/Select/Select.tsx:148-181 | The list is rendered iff open: an empty-state note with no options, otherwise one entry per option in order, marked selected iff its value is the current one. |
| Select.ShownOptionIsMarked | src/components/Select/Select.tsx:135-164 | The option whose label the trigger shows is marked selected in the open list. |
| Select.SelectState.constructor | src/components/Select/Select.tsx:57-58 | It starts closed, with internal value `defaultValue \|\| ''`. |
| Select.SelectState.KeyDown | src/components/Select/Select.tsx:78-97 | Disabled: nothing changes. Otherwise the open state and the prevented default follow `KeyTransition`. |
| Select.SelectState.TriggerClick | src/components/Select/Select.tsx:128 | The trigger toggles the list unless disabled. |
| Select.SelectState.Choose | src/components/Select/Select.tsx:99-107 | A disabled option changes nothing and calls nothing. An enabled one calls `onChange` with its value and closes the list, and the internal value follows only when uncontrolled. A controlled Select keeps showing its prop. |
| Select.SelectState.PointerDown | src/components/Select/Select.tsx:66-75 | A press outside closes the list (idempotently); a press inside leaves it. |
| Dropdown.DropdownState.constructor | src/components/Dropdown/Dropdown.tsx:36-39 | It starts with the internal state closed, so it is open iff the prop says `true`. The listeners are attached iff open and close over the first render's `open`. |
| Dropdown.DropdownState.Rerender | src/components/Dropdown/Dropdown.tsx:39-74 | A new `open` prop keeps the internal state. The listeners stay attached iff open, and take the new render's `setOpen` only when `isOpen` changed. |
| Dropdown.DropdownState.Effects | src/components/Dropdown/Dropdown.tsx:48-74 | The `[isOpen]` effects leave the listeners attached iff open, and re-capture the current `open` prop exactly when `isOpen` changed. |
| Dropdown.DropdownState.SetOpen | src/components/Dropdown/Dropdown.tsx:41-46 | `onOpenChange(v)` is always called. The internal state follows only when uncontrolled, so the menu shows `v` iff uncontrolled and is unchanged when controlled. |
| Dropdown.DropdownState.ListenerClose | src/components/Dropdown/Dropdown.tsx:41-74 | A listener's `setOpen(false)` reports the close and writes the internal state only when the `open` prop it captured was undefined, whatever the current prop. |
| Dropdown.DropdownState.TriggerClick | src/components/Dropdown/Dropdown.tsx:88-91 | The trigger's own `onClick` runs first, then `setOpen(!isOpen)`. |
| Dropdown.DropdownState.KeyDown | src/components/Dropdown/Dropdown.tsx:62-74 | Only while open, and only Escape, calls the listener's `setOpen(false)`, which decides by the captured `open` prop; anything else does nothing. The listener stays attached iff open. The listeners re-capture the current `open` prop iff `isOpen` changed. |
| Dropdown.DropdownState.PointerDown | src/components/Dropdown/Dropdown.tsx:48-60 | Only while open, and only outside, does a press call the listener's `setOpen(false)`, which decides by the captured `open` prop; anything else does nothing. The listeners re-capture the current `open` prop iff `isOpen` changed. |
| Dropdown.StaleListenerExample | src/components/Dropdown/Dropdown.tsx:41-74 | Opened uncontrolled and then passed `open={true}`, the menu keeps its listeners; Escape reports the close and clears the internal state, while the menu stays open. |
| Popover.ViewOf | src/components/Popover/Popover.tsx:93-117 | The panel is rendered iff open. The arrow is shown iff `showArrow`. The header is shown iff `title` or `showCloseButton`, and holds the title iff it is truthy and the close button iff enabled. |
| Popover.DefaultsShowArrowAndClose | src/components/Popover/Popover.tsx:36-37 | With the defaults an open popover has an arrow and a header with the close button. |
| Popover.PopoverState.constructor | src/components/Popover/Popover.tsx:42-45 | It starts closed unless the prop says `true`, with the listeners attached iff open and closing over the first render's `open`. |
| Popover.PopoverState.Rerender | src/components/Popover/Popover.tsx:45-80 | New props keep the internal state. The listeners stay attached iff open, and take the new render's `setOpen` only when `isOpen` changed. |
| Popover.PopoverState.Effects | src/components/Popover/Popover.tsx:54-80 | The `[isOpen]` effects leave the listeners attached iff open, and re-capture the current `open` prop exactly when `isOpen` changed. |
| Popover.PopoverState.SetOpen | src/components/Popover/Popover.tsx:47-52 | The same controlled/uncontrolled rule as Dropdown. |
| Popover.PopoverState.ListenerClose | src/components/Popover/Popover.tsx:47-80 | A listener's `setOpen(false)` reports the close and writes the internal state only when the `open` prop it captured was undefined. |
| Popover.PopoverState.TriggerClick | src/components/Popover/Popover.tsx:84-88 | The trigger's own `onClick` runs, then the popover toggles. The listeners re-capture the current `open` prop iff `isOpen` changed. |
| Popover.PopoverState.CloseButtonClick | src/components/Popover/Popover.tsx:100-104 | The close button, present only when open with `showCloseButton`, calls `setOpen(false)`. The listeners re-capture the current `open` prop iff `isOpen` changed. |
| Popover.PopoverState.KeyDown | src/components/Popover/Popover.tsx:68-80 | Only while open, Escape calls the listener's `setOpen(false)`, which decides by the captured `open` prop. The listeners re-capture the current `open` prop iff `isOpen` changed. |
| Popover.PopoverState.PointerDown | src/components/Popover/Popover.tsx:54-66 | Only while open, an outside press calls the listener's `setOpen(false)`, which decides by the captured `open` prop. The listeners re-capture the current `open` prop iff `isOpen` changed. |
| Tabs.UseTabsContext | src/components/Tabs/Tabs.tsx:15-21 | Outside a provider the hook fails with the library's error message; inside it, it returns the context. |
| Tabs.TabOf | src/components/Tabs/Tabs.tsx:120-143 | A Tab is selected iff its value is the active tab. Its `tabIndex` is 0 iff selected and -1 otherwise, it controls `panel-{value}`, and it is disabled as asked. Outside a provider it fails. |
| Tabs.PanelOf | src/components/Tabs/Tabs.tsx:169-184 | A TabPanel is hidden, with its children unrendered, iff its value is not the active tab. Its id is `panel-{value}`. |
| Tabs.ControlsMatchesPanel | src/components/Tabs/Tabs.tsx:134-174 | A Tab's `aria-controls` names a panel's id iff both carry the same value. |
| Tabs.TabAndPanelAgree | src/components/Tabs/Tabs.tsx:121-170 | A Tab is selected iff its panel is shown. |
| Tabs.AtMostOneSelected | src/components/Tabs/Tabs.tsx:121-133 | Among tabs with distinct values at most one is selected, and exactly one iff the active tab is among them. |
| Tabs.TabsState.constructor | src/components/Tabs/Tabs.tsx:48 | The internal value starts at `defaultValue \|\| ''`. |
| Tabs.TabsState.SetActiveTab | src/components/Tabs/Tabs.tsx:50-57 | `onValueChange(v)` is always reported. The active tab becomes `v` when uncontrolled and stays as it was when controlled. |
| Tabs.TabsState.ClickTab | src/components/Tabs/Tabs.tsx:136-143 | A disabled Tab changes nothing. An enabled one sets the active tab to its value, and when uncontrolled it is then selected. |
| ColorPicker.HexShaped | src/components/ColorPicker/ColorPicker.tsx:28 | A string the parser's pattern accepts has six or seven characters, and its last six are hex digits. |
| ColorPicker.HexToHsl | src/components/ColorPicker/ColorPicker.tsx:27-33 | A string is parsed into three channels below 256 iff it is an optional `#` plus six hex digits in either case. Any other string gives the fixed fallback `{h: 0, s: 100, l: 50}`. |
| ColorPicker.HexRoundTrip | src/components/ColorPicker/ColorPicker.tsx:28-33 | Parsing `#rrggbb` written from three channels gives those channels back. |
| ColorPicker.HexToHslIgnoresCase | src/components/ColorPicker/ColorPicker.tsx:28 | The parser's `/i` flag: upper-casing the input does not change what it parses to. |
| ColorPicker.Normalize | src/components/ColorPicker/ColorPicker.tsx:135-136 | The input gets a `#` prefix unless it already starts with one. |
| ColorPicker.ValidHex | src/components/ColorPicker/ColorPicker.tsx:137 | The input validator accepts a string iff it starts with `#` and the parser's pattern accepts it. |
| ColorPicker.ValidatorMatchesParser | src/components/ColorPicker/ColorPicker.tsx:136-137 | After prefixing, the input validator accepts exactly the strings the parser reads, so an accepted input never falls back. |
| ColorPicker.NormalizeIdempotent | src/components/ColorPicker/ColorPicker.tsx:136 | Prefixing twice is prefixing once. |
| ColorPicker.DefaultPresetsValid | src/components/ColorPicker/ColorPicker.tsx:78-88 | Every default preset and the default colour pass the validator. |
| ColorPicker.ColorPickerState.SwatchLabel | src/components/ColorPicker/ColorPicker.tsx:165 | The label has the current colour's length, each character is the upper-case form of the colour's character at that place, no lower-case letter remains, and it denotes the same colour. |
| ColorPicker.ColorPickerState.constructor | src/components/ColorPicker/ColorPicker.tsx:97-109 | It starts closed, with `defaultValue` as the internal colour. The HSL state comes from a truthy `value`, else from `defaultValue`. |
| ColorPicker.ColorPickerState.Rerender | src/components/ColorPicker/ColorPicker.tsx:104-109 | When the `value` prop changes to a truthy string, the HSL state is re-parsed from it; otherwise it is kept. |
| ColorPicker.ColorPickerState.HexInput | src/components/ColorPicker/ColorPicker.tsx:134-144 | Invalid input changes nothing and calls nothing. A valid `#`-prefixed input calls `onChange` with it, case kept, and sets the HSL state to a parsed colour, not the fallback. The internal colour takes it only when uncontrolled. |
| ColorPicker.ColorPickerState.PresetClick | src/components/ColorPicker/ColorPicker.tsx:146-152 | A preset is taken without validation: `onChange` gets it, and the HSL state is re-parsed from it. The internal colour takes it only when uncontrolled. |
| ColorPicker.ColorPickerState.UpdateColor | src/components/ColorPicker/ColorPicker.tsx:125-132 | The new HSL state is stored, and `onChange` gets its hex string, which the internal colour takes only when uncontrolled. |
| ColorPicker.ColorPickerState.TriggerClick | src/components/ColorPicker/ColorPicker.tsx:111-161 | The trigger toggles unless disabled, and the outside-press listener is attached iff open. |
| ColorPicker.ColorPickerState.PointerDown | src/components/ColorPicker/ColorPicker.tsx:112-123 | While open, an outside press closes the picker and detaches the listener; a press inside keeps it open. |
| Spinner.Clamp | src/components/Spinner/Spinner.tsx:107 | The clamped value lies in `[0, 100]`, is the identity inside it, and is the nearer bound outside it. |
| Spinner.ClampIdempotentMonotone | src/components/Spinner/Spinner.tsx:107 | Clamping is idempotent and monotone. |
| Spinner.PercentText | src/components/Spinner/Spinner.tsx:137-148 | The percentage text is a signed decimal number followed by `%`, and the number reads back as the clamped value. |
| Spinner.PercentTextInjective | src/components/Spinner/Spinner.tsx:137-148 | Different values never show the same percentage text. |
| Spinner.ColorClass | src/components/Spinner/Spinner.tsx:115-119 | `primary` adds no colour class, and each other colour adds its own. |
| Spinner.Progress | src/components/Spinner/Spinner.tsx:98-157 | The label wrapper is used iff `label` or `showValue`. When indeterminate, `aria-valuenow` and the width style are both absent; otherwise both use the clamped value. The percentage is shown iff `showValue` and not indeterminate. |
| Spinner.ProgressConsistent | src/components/Spinner/Spinner.tsx:131-137 | The announced value and the drawn width always agree and stay in `[0, 100]`. |
| Spinner.Circular | src/components/Spinner/Spinner.tsx:192-249 | The same clamp drives the dash offset (absent when indeterminate). The centre text is shown iff `showValue` and not indeterminate. The colour choice is the same as in the linear bar. |
| Spinner.LinearAndCircularAgree | src/components/Spinner/Spinner.tsx:148-249 | Linear and circular indicators show the same percentage text for the same value. |
| Field.FinalState | src/components/Input/Input.tsx:61 | A truthy error message forces the error state; otherwise the requested state is kept. |
| Field.HelperText | src/components/Input/Input.tsx:62-108 | The helper line is shown iff the error message or the helper text is truthy. The error message wins. |
| Field.AriaInvalid | src/components/Input/Input.tsx:97 | `aria-invalid` holds iff there is a truthy error message or the state is `error`. |
| Field.ErrorShownWhenInvalid | src/components/TextArea/TextArea.tsx:67-96 | A field with an error message is marked invalid and shows that message. A field not asked to be in the error state is marked invalid only because of an error message. |
| Input.View | src/components/Input/Input.tsx:61-108 | The label is shown iff truthy, with the required marker iff `required`. The state is the final state, `aria-invalid` holds iff that state is `error`, and the helper line follows the error/helper precedence. |
| Input.ErrorOverridesState | src/components/Input/Input.tsx:61-97 | With an error message the field is in the error state, marked invalid, and shows the message, whatever state was asked. |
| TextArea.InitialText | src/components/TextArea/TextArea.tsx:58-60 | The initial count is taken from `value`, else `defaultValue`, else the empty string, by truthiness. |
| TextArea.NearLimit | src/components/TextArea/TextArea.tsx:70 | Near the limit only with a limit. For a positive limit `m` it holds exactly from `ceil(0.9 * m)` on, and any count at or past the limit is near it. |
| TextArea.OverLimit | src/components/TextArea/TextArea.tsx:71 | Over the limit only with a limit and only past it, and then always near it. |
| TextArea.OverImpliesNear | src/components/TextArea/TextArea.tsx:70-71 | Over the limit implies near it. A negative `maxLength` puts every count over and near. |
| TextArea.CountClassOf | src/components/TextArea/TextArea.tsx:107-110 | The count is marked "exceeded" iff over the limit, "limit" iff near but not over, and neither otherwise. |
| TextArea.CountClassExamples | src/components/TextArea/TextArea.tsx:70-110 | With limit 200: 179 plain, 180 and 200 near, 201 exceeded. No limit, or a limit of 0, is never flagged. |
| TextArea.CountText | src/components/TextArea/TextArea.tsx:112 | The counter shows the count, then ` / {maxLength}` when there is a limit. A `maxLength` of 0 is rendered by React as a trailing `0`. |
| TextArea.FooterOf | src/components/TextArea/TextArea.tsx:101-115 | The footer is shown iff there is helper text or `showCharCount`. It holds the helper line, and the counter with its class iff `showCharCount`. |
| TextArea.TextAreaState.constructor | src/components/TextArea/TextArea.tsx:58-60 | The count starts at the length of `value \|\| defaultValue \|\| ''`. |
| TextArea.TextAreaState.ChangeAsWritten | src/components/TextArea/TextArea.tsx:62-98 | As written: with a caller's `onChange` the spread replaces `handleChange`, so the caller's handler runs and the count is not updated. Without one, the count becomes the new length. |
| TextArea.StaleCountExample | src/components/TextArea/TextArea.tsx:62-112 | As written, typing "ab" with an `onChange` prop and limit 2 leaves the counter at 0 and plain, although 2 of 2 is at the limit. |
| TextArea.TextAreaState.Change | src/components/TextArea/TextArea.tsx:62-65 | As intended: the count is the new text's length and the caller's `onChange` is also called. |
| TextArea.CorrectedCountExample | src/components/TextArea/TextArea.tsx:62-112 | Corrected, the same input shows 2 with the limit class, and the caller's handler still runs. |
| UseTheme.Name | src/hooks/useTheme.ts:3-42 | Dark is stored as `"dark"` and light as `"light"`. |
| UseTheme.Initial | src/hooks/useTheme.ts:19-29 | The stored value is used only when it is exactly `"dark"` or `"light"`; otherwise the default theme is used. |
| UseTheme.PersistRoundTrip | src/hooks/useTheme.ts:20-42 | A persisted theme is read back unchanged on the next mount, whatever the default. |
| UseTheme.InvalidStoredIgnored | src/hooks/useTheme.ts:24-28 | `"Dark"`, `""` and a missing key all give the default. |
| UseTheme.Toggled | src/hooks/useTheme.ts:49-51 | Toggling always changes the theme. |
| UseTheme.ToggleInvolution | src/hooks/useTheme.ts:49-51 | Toggling twice is the identity. |
| UseTheme.Attribute | src/hooks/useTheme.ts:35-39 | Light sets `data-theme="light"`; dark removes the attribute. |
| UseTheme.DarkXorLight | src/hooks/useTheme.ts:57-58 | Exactly one of `isDark` and `isLight` holds. |
| UseTheme.ThemeState.constructor | src/hooks/useTheme.ts:19-43 | The theme is the validated stored value, else the default; the effect then persists it and sets the attribute. |
| UseTheme.ThemeState.ApplyEffect | src/hooks/useTheme.ts:32-43 | The effect writes the theme under `gends-theme`, touching no other key, and sets or removes the attribute to match. |
| UseTheme.ThemeState.SetTheme | src/hooks/useTheme.ts:32-47 | The theme becomes exactly `t`, is persisted under `gends-theme`, and the attribute matches. |
| UseTheme.ThemeState.ToggleTheme | src/hooks/useTheme.ts:32-51 | Dark becomes light and light becomes dark, persisted and applied. |
| Modal.HeaderOf | src/components/Modal/Modal.tsx:97-124 | The header holds the title and the description iff each is truthy, and the close button iff `showCloseButton`. |
| Modal.ViewAsWritten | src/components/Modal/Modal.tsx:86-124 | As written: nothing is rendered when closed. The header appears iff title or close button. `aria-describedby` is set iff there is a description, and `aria-labelledby` iff there is a title. |
| Modal.DescriptionDroppedAsWritten | src/components/Modal/Modal.tsx:95-109 | As written, a description without a title or close button is not rendered while `aria-describedby` still names it. |
| Modal.View | src/components/Modal/Modal.tsx:86-124 | Corrected: the header also appears for a description. Nothing is rendered when closed, and the view agrees with the code as written whenever there is no description. |
| Modal.ReferencesResolve | src/components/Modal/Modal.tsx:94-109 | In the corrected view every ARIA reference names a rendered element holding the right text. |
| Modal.ModalState.constructor | src/components/Modal/Modal.tsx:67-77 | On mount, the listener is attached iff open. The body is locked when open and otherwise keeps the `overflow` it had before. |
| Modal.ModalState.Rerender | src/components/Modal/Modal.tsx:67-77 | The cleanup detaches the listener and clears `overflow`, then the effect attaches and locks again iff open, so a closed dialog leaves `overflow` at `''`. |
| Modal.ModalState.Unmount | src/components/Modal/Modal.tsx:73-76 | Teardown removes the listener and resets `overflow` to `''`. |
| Modal.ModalState.KeyDown | src/components/Modal/Modal.tsx:58-65 | `onClose` is called iff open, the key is Escape and `closeOnEscape` holds. |
| Modal.ModalState.OverlayClick | src/components/Modal/Modal.tsx:80-84 | `onClose` is called iff open, `closeOnOverlayClick` holds and the click targets the overlay itself. |
| Modal.ModalState.CloseButtonClick | src/components/Modal/Modal.tsx:111-116 | The close button calls `onClose` iff it is rendered: open with `showCloseButton`. |
| AlertDialog.Button | src/components/Button/Button.tsx:68-71 | Button's native element is disabled iff `disabled` or `isLoading`, and shows the spinner iff `isLoading`. |
| AlertDialog.ConfirmVariant | src/components/AlertDialog/AlertDialog.tsx:89 | The confirm button is `danger` iff the dialog variant is `danger`, else `primary`. |
| AlertDialog.CancelButton | src/components/AlertDialog/AlertDialog.tsx:124-131 | The cancel button is secondary and disabled iff loading. |
| AlertDialog.ConfirmButtonAsWritten | src/components/AlertDialog/AlertDialog.tsx:132-139 | As written: the confirm button is never disabled and never shows a spinner, because `loading` is not a Button prop. |
| AlertDialog.ConfirmEnabledWhileLoading | src/components/AlertDialog/AlertDialog.tsx:127-135 | As written, a loading dialog's confirm button still runs `onConfirm` while its cancel button is disabled. |
| AlertDialog.ConfirmButton | src/components/AlertDialog/AlertDialog.tsx:132-139 | Corrected: the confirm button is disabled and shows the spinner iff loading. |
| AlertDialog.LoadingLocksDialog | src/components/AlertDialog/AlertDialog.tsx:60-139 | Corrected: while loading, neither button, Escape nor the overlay does anything; otherwise all four work. |
| AlertDialog.View | src/components/AlertDialog/AlertDialog.tsx:77-139 | Nothing is rendered when closed. The description element exists iff the description is truthy. The buttons are the cancel and corrected confirm buttons. |
| AlertDialog.AlertDialogState.constructor | src/components/AlertDialog/AlertDialog.tsx:66-74 | On mount, the listener is attached iff open. The body is locked when open and otherwise keeps the `overflow` it had before. |
| AlertDialog.AlertDialogState.Rerender | src/components/AlertDialog/AlertDialog.tsx:59-75 | The cleanup, then the effect again iff open, so a closed dialog leaves `overflow` at `''`. |
| AlertDialog.AlertDialogState.Unmount | src/components/AlertDialog/AlertDialog.tsx:71-74 | Teardown removes the listener and resets `overflow`. |
| AlertDialog.AlertDialogState.KeyDown | src/components/AlertDialog/AlertDialog.tsx:60-63 | `onClose` is called iff open, the key is Escape and not loading. |
| AlertDialog.AlertDialogState.OverlayClick | src/components/AlertDialog/AlertDialog.tsx:94-98 | `onClose` is called iff open, the click targets the overlay itself and not loading. |
| AlertDialog.AlertDialogState.CancelClick | src/components/AlertDialog/AlertDialog.tsx:124-131 | Cancel calls `onClose` iff open and not loading. |
| AlertDialog.AlertDialogState.ConfirmClick | src/components/AlertDialog/AlertDialog.tsx:79-139 | With the corrected button, confirm calls `onConfirm` iff open and not loading. |
| FileCard.IsImage | src/components/FileCard/FileCard.tsx:76 | A truthy thumbnail always counts as an image. Otherwise only a file type of three or four characters can, since the pattern must match the whole string. |
| FileCard.IsImageIgnoresCase | src/components/FileCard/FileCard.tsx:76 | Upper-casing the file type never changes the answer, as the `i` flag promises. |
| FileCard.IsImageExamples | src/components/FileCard/FileCard.tsx:76 | The whole-string, case-insensitive match: `PNG` and `Jpeg` are images; `png2`, `.png`, `tiff` and no type are not. |
| FileCard.ThumbnailOf | src/components/FileCard/FileCard.tsx:94-100 | A truthy thumbnail is shown as the image. Otherwise the placeholder shows the image icon iff the file counts as an image. |
| FileCard.Badge | src/components/FileCard/FileCard.tsx:102-104 | The upper-case type badge appears iff there is a type and the view is grid. |
| FileCard.JoinWithDots | src/components/FileCard/FileCard.tsx:124-136 | Joining entries with dots is empty iff there are no entries, and has `2n-1` parts otherwise. |
| FileCard.JoinAlternates | src/components/FileCard/FileCard.tsx:124-136 | A joined row alternates entries and dots, starting and ending with an entry. |
| FileCard.MetaRow | src/components/FileCard/FileCard.tsx:122-136 | The meta row is empty iff no entry is present, and it never starts or ends with a dot. |
| FileCard.MetaRowIsJoined | src/components/FileCard/FileCard.tsx:124-136 | The meta row the JSX builds is exactly the present entries (list-view type, size, date) joined with dots, so a dot appears only between consecutive entries. |
| FileCard.TypeInBadgeOrRow | src/components/FileCard/FileCard.tsx:102-124 | The type appears as the badge in grid view and as the first meta entry in list view, never both. |
| FileCard.MenuButtonsOf | src/components/FileCard/FileCard.tsx:106-152 | With `onMenuClick` there is always a thumbnail menu button; the trailing one appears iff also in list view. |
| FolderCard.ColorClass | src/components/FolderCard/FolderCard.tsx:65 | The class is absent for `default`. Otherwise it is `icon` followed by the colour name with its first letter capitalised. |
| FolderCard.ColorClassInjective | src/components/FolderCard/FolderCard.tsx:65 | Different colours get different classes. |
| FolderCard.ColorClassExamples | src/components/FolderCard/FolderCard.tsx:65 | `blue` gives `iconBlue` and `purple` gives `iconPurple`. |
| FolderCard.MetaText | src/components/FolderCard/FolderCard.tsx:67-91 | There is no meta line iff `meta` is falsy and `itemCount` is undefined. A truthy `meta` wins, and the text is never empty. |
| FolderCard.CountText | src/components/FolderCard/FolderCard.tsx:67 | Without `meta`, the text is the count's digits, which read back as the count, followed by ` item`, with a final `s` iff the count is not 1. |
| FolderCard.MetaTextExamples | src/components/FolderCard/FolderCard.tsx:67 | 0 gives "0 items", 1 gives "1 item", an empty `meta` falls through to "12 items", and "Shared" wins over a count. |
| Skeleton.Css | src/components/Skeleton/Skeleton.tsx:30-33 | A number becomes its digits followed by `px`, a string passes through, and an absent size stays absent. |
| Skeleton.PxRoundTrip | src/components/Skeleton/Skeleton.tsx:31-32 | The number in a pixel size reads back as the prop. |
| Skeleton.SkeletonOf | src/components/Skeleton/Skeleton.tsx:21-35 | A bone has the requested variant, carries a width and a height exactly when given, and passes string sizes through unchanged. |
| Skeleton.LineCount | src/components/Skeleton/Skeleton.tsx:55 | `Array.from({length})` gives `lines` elements, none for a negative length. |
| Skeleton.SkeletonText | src/components/Skeleton/Skeleton.tsx:49-65 | There are exactly `lines` text bones, each 16 pixels high, the last 60% wide and every other 100%. |
| Skeleton.Line | src/components/Skeleton/Skeleton.tsx:56-61 | One line is a 16-pixel text bone, 60% wide iff it is the last. |
| Skeleton.OneShortLine | src/components/Skeleton/Skeleton.tsx:59 | Exactly the last line is the short one. |
| Skeleton.SkeletonAvatar | src/components/Skeleton/Skeleton.tsx:80-98 | A circle with width and height both `size`. With `withText` it gets two text lines, 120×14 and 80×12. |
| Skeleton.SkeletonCard | src/components/Skeleton/Skeleton.tsx:111-130 | An optional 100%×160 rectangle, a title text bone 70% wide and 20 pixels high, then exactly `SkeletonText` with two lines. The margin styles passed are not part of any bone, because `Skeleton` takes no `style`. |
| Decimal.IntToString | src/components/Spinner/Spinner.tsx:148 | `${n}` is non-empty, starts with `-` iff `n` is negative and with a digit otherwise, and all its other characters are digits. |
| Decimal.NatRoundTrip | src/components/Spinner/Spinner.tsx:148 | The decimal text of a natural number parses back to it. |
| Decimal.IntRoundTrip | src/components/FolderCard/FolderCard.tsx:67 | The decimal text of an integer, with a minus sign if negative, parses back to it. |
| Decimal.IntToStringInjective | src/components/Spinner/Spinner.tsx:148 | Different integers have different decimal texts. |

## Left out

- Text handling is ASCII only. `\s`, `trim`, `toUpperCase`/`toLowerCase` and the `/i` flag ignore Unicode whitespace and non-ASCII case mappings. `.length` and `slice` in TextArea and Avatar count UTF-16 code units, while the model counts characters, so text outside the Basic Multilingual Plane is counted differently.
- Numbers are integers. The floating-point HSL/RGB conversion (`hexToHsl` past its parse, `hslToHex`) and the saturation and hue drag fractions are not modelled. A parsed colour is kept as its three channel values, and `UpdateColor` takes the hex string the conversion would give.
- The pointer-position fraction and the Slider's `percentage` are left out. `Slider.PositionValue` takes the raw position value as an integer that the caller computes; its rounding and clamp are modelled exactly.
- Non-integer Slider values and steps are not modelled.
- Slider.PositionValue: requires `step > 0`; a zero or negative step (division by zero in `Math.round`) is not modelled.
- `ProgressCircular` radius, circumference and dash-offset geometry are left out. The model states the clamped value the offset is computed from.
- Component sizes, variants, icons and class-name concatenation are not modelled, beyond the classes that carry a rule.
- DOM plumbing becomes abstract events:
  - `contains` becomes an `inside` flag and `e.target === e.currentTarget` becomes a `targetIsOverlay` flag.
  - `createPortal` and `stopPropagation` are not modelled.
  - Document listeners become a `listening` field.
- Listener closures: the Dropdown and Popover listener effects depend on `[isOpen]` only, so their listeners keep the `setOpen` of the render in which `isOpen` last changed. The model records the `open` prop that `setOpen` captured (`listenerOpen`). The `onOpenChange` it captured is not modelled: a call is reported as `OnOpenChange`, without the identity of the handler. Listeners of the other components are modelled as reading the latest props. A stale closure between a render and its effect is not modelled.
- The server-side check `typeof window !== 'undefined'` in `useTheme` is not modelled: the storage is always present. Writes to storage by other code are not modelled.
- Modal.ModalState.Rerender and AlertDialog.AlertDialogState.Rerender: the effect re-runs only when a dependency changes (`open` and `handleKeyDown` in Modal; `open`, `onClose` and `loading` in AlertDialog). The model treats every re-render as one that changes them, as an inline `onClose` does. A re-render with unchanged dependencies would keep the previous listener and `overflow`.
- Modal.ModalState: `document.body.style.overflow` is one field per dialog. With two dialogs open at once, one closing clears the other's lock; this is not modelled.
- AlertDialog.View: `aria-describedby="alert-description"` is always set although the description element exists only for a truthy description. The view's contract states both facts, but no lemma treats the dangling reference as a defect.
- Tabs.PanelOf: a TabPanel's `aria-labelledby` names `tab-{value}`, an id no Tab renders; the panel view does not record it.
- Avatar alt text and status dot, Select's label and helper text, FileCard names and selection, and the `text`/`label` children of every component are rendering only and are not modelled.
- TextArea.TextAreaState.Change: the browser's enforcement of the native `maxlength` attribute is not modelled, so `Change` accepts text longer than `maxLength`.
- TextArea.NearLimit: the source compares with the floating-point product `maxLength * 0.9`; the model compares `10 * count >= 9 * maxLength` exactly, so a rounding of that product is not modelled.
- FolderCard.MetaText: `itemCount` is an integer; a fractional count's text is not modelled.
- Decimal.IntToString: JavaScript writes numbers of 10^21 and above in exponent notation; the model always writes plain digits.
- `label` in `Progress` is named `text` in `Spinner.ProgressProps`, because `label` is a reserved word in Dafny.

## Findings

| source | as written | input that shows it | evidently intended | confidence | as-written member | corrected member |
|---|---|---|---|---|---|---|
| src/components/TextArea/TextArea.tsx:97-98 | `{...props}` comes after `onChange={handleChange}`, so a caller's `onChange` replaces `handleChange` and `charCount` never changes | `showCharCount`, `maxLength` 2, an `onChange` prop, type "ab": the counter shows 0 and plain instead of 2 with the limit class | `handleChange` updates the count and forwards to the caller's `onChange` | not executed | TextArea.TextAreaState.ChangeAsWritten, TextArea.StaleCountExample | TextArea.TextAreaState.Change, TextArea.CorrectedCountExample |
| src/components/AlertDialog/AlertDialog.tsx:135 | the confirm Button gets `loading`, which Button does not read (it reads `isLoading`, src/components/Button/Button.tsx:68), so it stays enabled and shows no spinner | `open`, `loading` true: the cancel button is disabled but confirm still calls `onConfirm` | the confirm button is disabled and shows its spinner while loading | not executed | AlertDialog.ConfirmButtonAsWritten, AlertDialog.ConfirmEnabledWhileLoading | AlertDialog.ConfirmButton, AlertDialog.LoadingLocksDialog |
| src/components/Modal/Modal.tsx:97 | the header, which holds the description, is rendered only for a title or a close button, while `aria-describedby` is set for any description | `open`, no title, description "Details", `showCloseButton` false: `aria-describedby` names an element that is not rendered | the header is also rendered for a description | not executed | Modal.ViewAsWritten, Modal.DescriptionDroppedAsWritten | Modal.View, Modal.ReferencesResolve |
