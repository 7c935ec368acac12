# iOS-style wheel date picker — Dafny model

This project models the scroll-wheel date picker of `components/Wheel.tsx`
and `components/WheelPicker.tsx`. The picker has three wheels: year, month
and day. Each wheel is a scrollable list of numbers. The row nearest the
scroll offset becomes the selected value, and a sync effect moves the list
when its selection changes from outside, unless the user is scrolling.

The model is split as the source is:

- `WheelIndex` (wheel_index.dfy): the offset-to-row arithmetic
  (`Math.round`, the clamp), the value a scroll event reports to
  `onSelect`, `items.indexOf`, the offset the sync effect leaves behind,
  and the offset a click on a row scrolls to.
- `WheelStyle` (wheel_style.dfy): `getItemStyle` reduced to scale,
  opacity, rotation and font weight. The floating-point test
  `|index - scrollTop / 50| < 0.5` is stated exactly as
  `2 * |50 * index - scrollTop| < 50`.
- `WheelState` (wheel_state.dfy): the class `Wheel`. Its fields are the
  props, the container's DOM offset, the `scrollTop` state, the
  `isUserScrolling` and `scrollTimeout` refs, and the browser's pending
  timers. Its methods are the events: mount, scroll, timer fired, new
  props. A call of `onSelect` is the `chosen` out-parameter of `Scroll`.
- `PickerRanges` and `PickerText` (picker_ranges.dfy, picker_text.dfy): the
  year, month and day lists; the decimal text of an integer; the unit
  labels; `padStart(2, '0')`; the date label.
- `Picker` (picker.dfy): the class `WheelPicker`. It holds the three
  selections and the three wheels, and it re-renders all three wheels
  after every selection change. The source builds the three lists afresh
  on every render, always with the same contents; the model builds them
  once, at mount, and hands the same lists to every render.
- `Wrappers` (wrappers.dfy): the `Option` type.

Offsets are integers in CSS pixels. `Math.round(o / 50)` is
`(o + 25) / 50` with floor division, which holds for negative offsets too.

Two consequences of the code are worth knowing:

- The picker rebuilds its three lists on every render, so every render
  re-runs the sync effect of all three wheels (`WheelPicker.Render`). After
  a selection changes, a wheel that was left idle between two rows snaps
  back to the row of its selection (`WheelPicker.ScrollWheel`).
- At an offset half-way between two rows (`50 * k + 25`) neither row is
  emphasised (`WheelStyle.NoneFocusedHalfway`), although a scroll event
  there selects row `k + 1`.

## Model

| member | source | states |
|---|---|---|
| `WheelIndex.NearestIndex` | components/Wheel.tsx:49 | the rounded row is the one whose centre lies within half a row of the offset (halves round up, as `Math.round` does) |
| `WheelIndex.ClampedIndex` | components/Wheel.tsx:50 | for a non-empty list the clamped row is a valid index, and equals the rounded row whenever that row is in range; for an empty list it is 0 |
| `WheelIndex.ClampedIndexIsNearestRow` | components/Wheel.tsx:49-50 | no row of the list has its centre strictly closer to the offset than the clamped row |
| `WheelIndex.NearRowMapsToRow` | components/Wheel.tsx:49-51 | any offset less than half a row from row `k` maps to row `k` |
| `WheelIndex.SelectionAt` | components/Wheel.tsx:49-55 | `onSelect` is called exactly when the list is non-empty and the item at the clamped row differs from `selected`; it is then called with exactly that item, which is never the current selection |
| `WheelIndex.AbsentSelectionIsReplaced` | components/Wheel.tsx:51-55 | when `selected` is not in a non-empty list, every scroll event reports the item under the offset |
| `WheelIndex.IndexOf` | components/Wheel.tsx:22-23 | `indexOf` gives -1 exactly when the value is absent; otherwise it gives a position holding the value with no earlier one |
| `WheelIndex.ClickTarget` | components/Wheel.tsx:115-121 | the offset a click on row `i` scrolls to rounds back to row `i` |
| `WheelIndex.ClickSelectsRow` | components/Wheel.tsx:115-121 | the scroll event at a clicked row's offset reports that row's item, unless it is already selected |
| `WheelIndex.SyncedOffset` | components/Wheel.tsx:20-32 | the sync effect changes nothing while the user scrolls or when `selected` is absent; when it moves the list, it moves it to the first row holding `selected`, and only from more than one pixel away |
| `WheelIndex.SyncConverges` | components/Wheel.tsx:22-29 | when not scrolling and `selected` is present, the list ends within one pixel of the first row holding `selected`, and that row is the one the offset maps to |
| `WheelIndex.SyncIdempotent` | components/Wheel.tsx:26-29 | running the sync effect a second time changes nothing |
| `WheelIndex.SyncNoFeedback` | components/Wheel.tsx:24-28 | the scroll event at the offset the sync effect leaves does not call `onSelect` (no feedback loop) |
| `WheelIndex.MountOffset` | components/Wheel.tsx:15-29 | from the initial offset 0, the mount-time sync leaves the list exactly on the first row holding `selected` |
| `WheelStyle.GetItemStyle` | components/Wheel.tsx:58-73 | a centred row gets scale 1, opacity 1, no rotation and weight 600; any other row gets scale 0.9, opacity 0.4 and weight 400, and it tilts +25 degrees at or below the rounded centre and -25 degrees above it |
| `WheelStyle.Centered` | components/Wheel.tsx:59-65 | the test `distance < 0.5` holds of a row exactly when it is the rounded row and the offset is not half-way between two rows |
| `WheelStyle.AtMostOneFocused` | components/Wheel.tsx:58-70 | at most one row is emphasised at any offset |
| `WheelStyle.NoneFocusedHalfway` | components/Wheel.tsx:59-64 | half-way between two rows no row is emphasised |
| `WheelStyle.SettledStyles` | components/Wheel.tsx:58-70 | at rest on row `k`, row `k` is emphasised, rows below tilt +25 degrees and rows above tilt -25 degrees |
| `WheelState.Wheel.AtMostOneTimer` | components/Wheel.tsx:40-46 | at most one debounce timer is ever pending |
| `WheelState.Wheel.constructor` | components/Wheel.tsx:13-32 | a mounted wheel is not scrolling, has no timer, and sits where the first sync effect puts it |
| `WheelState.Wheel.Sync` | components/Wheel.tsx:20-32 | the DOM offset and the `scrollTop` state both become the synced offset; the props, the flag and the timers are untouched |
| `WheelState.Wheel.SetProps` | components/Wheel.tsx:20-32 | new props are stored and the sync effect runs on them |
| `WheelState.Wheel.Scroll` | components/Wheel.tsx:34-56 | a scroll event records the offset in the DOM and the state, sets the flag, cancels the pending timer and schedules exactly one new one, and reports `SelectionAt` to `onSelect` |
| `WheelState.Wheel.TimerFires` | components/Wheel.tsx:43-46 | a pending timer that fires clears the flag and leaves no timer pending; a cleared timer has no effect |
| `PickerRanges.Range` | components/WheelPicker.tsx:13-15 | a list of the given length that starts at `start` and ends at `start + length - 1` |
| `PickerRanges.RangeAscending` | components/WheelPicker.tsx:13-15 | the candidate lists are strictly ascending, so no value appears twice |
| `PickerRanges.RangeIndexOf` | components/WheelPicker.tsx:13-15 | a value is in a list exactly when it lies between its ends, and its first position is its distance from the start |
| `PickerRanges.Years` | components/WheelPicker.tsx:12-13 | `years` holds 100 years, from `currentYear - 50` to `currentYear + 49` |
| `PickerRanges.Months` | components/WheelPicker.tsx:14 | `months` holds 12 values, from 1 to 12 |
| `PickerRanges.Days` | components/WheelPicker.tsx:15 | `days` holds 31 values, from 1 to 31, and takes no month or year |
| `PickerRanges.YearsShape` | components/WheelPicker.tsx:12-13 | `currentYear` is at index 50 of `years`, which is where its wheel's sync effect scrolls |
| `PickerRanges.SelectionInRange` | components/WheelPicker.tsx:13-15 | a wheel over one of these lists only ever reports a value inside the list's range |
| `PickerRanges.InitialSelectionsListed` | components/WheelPicker.tsx:5-15 | today's month and day, and a year within 50 years of `currentYear`, are in their lists, at the positions the mount-time sync scrolls to |
| `PickerRanges.InitialOffsets` | components/WheelPicker.tsx:5-15 | from offset 0 the first sync effect leaves the month and day wheels on today's row, and the year wheel on its row when the year is within 50 years of `currentYear` and at the top otherwise |
| `PickerText.NatText` | components/WheelPicker.tsx:18-20 | the decimal text of a natural number is a non-empty digit string without a leading zero (it starts with `0` only for 0), of one digit exactly below 10 |
| `PickerText.NatTextValue` | components/WheelPicker.tsx:18-20 | the digits of a natural number read back as that number |
| `PickerText.DecimalTextRoundTrip` | components/WheelPicker.tsx:18-20 | the decimal text of any integer, negative ones included, parses back to it |
| `PickerText.DecimalText` | components/WheelPicker.tsx:18-26 | the text of an integer starts with a minus sign exactly when it is negative, and the rest is decimal digits with no leading zero |
| `PickerText.FormatItem` | components/WheelPicker.tsx:18-20 | an item label is the value's unpadded decimal text followed by its wheel's unit (年, 月 or 日), so 7 gives `7月`; the text before the unit parses back to the value |
| `PickerText.FormatItemInjective` | components/WheelPicker.tsx:18-20 | distinct values of a wheel get distinct labels |
| `PickerText.PadStart2` | components/WheelPicker.tsx:24-25 | padding keeps the text as its tail, makes it at least two characters long, and fills the front with `'0'` |
| `PickerText.TwoDigitField` | components/WheelPicker.tsx:24-25 | a value below 100 becomes exactly two digits: one leading zero below 10, unchanged from 10 on, and the digits read back as the value |
| `PickerText.FormatDate` | components/WheelPicker.tsx:22-27 | the date label is at least nine characters longer than the year's text and ends with `日` |
| `PickerText.FormatDateDigits` | components/WheelPicker.tsx:22-27 | the date label is the year's text, `年 `, the month's two digits, `月 `, the day's two digits and `日` |
| `PickerText.FormatDateExample` | components/WheelPicker.tsx:22-27 | 7 March 2024 is labelled `2024年 03月 07日` |
| `Picker.WheelPicker.constructor` | components/WheelPicker.tsx:4-15 | at mount the selections are today's date, the label shows it, every wheel is idle with no timer, and each wheel sits on today's row (the year wheel at offset 0 when the year is outside its list) |
| `Picker.WheelPicker.Label` | components/WheelPicker.tsx:31-33 | the label shown is the year's text and `年 `, then the month and the day as two digits each, followed by `月 ` and `日` |
| `Picker.WheelPicker.Render` | components/WheelPicker.tsx:35-64 | a render gives every wheel its list and selection and moves each wheel, one by one, to its sync result; it changes only those four fields of each wheel, so flags and timers stay as they were |
| `Picker.WheelPicker.OnSelect` | components/WheelPicker.tsx:38-63 | for a value the wheel can report (inside its list's range, `SelectionInRange`), the `onSelect` setter of one wheel changes that selection to the value and leaves the other two unchanged; the re-render then moves every wheel to its sync result |
| `Picker.WheelPicker.ScrollWheel` | components/WheelPicker.tsx:38-63 | a scroll on one wheel changes only that wheel's selection, to the value its `onSelect` reports; that wheel keeps the user's offset, is marked as scrolling and has exactly one new timer, the next handle; each other wheel keeps its flag and timers and moves to its sync result if a selection changed, and stays put otherwise |
| `Picker.WheelPicker.TimerFires` | components/Wheel.tsx:43-46 | a wheel's pending debounce timer ends that wheel's scrolling state and leaves no timer pending; a cleared timer changes nothing; no offset or selection changes |

## Left out

- Rendering: JSX, class names, the highlight band, the gradient overlays, the padding rows and `VISIBLE_ITEMS`. These are presentation only.
- The colours and the `transform` and `transition` strings of `getItemStyle`. Only the numeric scale, opacity, rotation and weight are modelled.
- CSS scroll snap, momentum scrolling and the smooth animation of `scrollTo`. A click is modelled by its target offset. The scroll events the animation produces are ordinary `Scroll` events.
- The browser's limits on the scroll offset (0 to `(n - 1) * 50`) and fractional offsets on high-density screens. `Scroll` accepts any integer offset.
- The scroll event that a programmatic write of `scrollTop` raises in the browser. In the model the environment issues it as a `Scroll` call; `SyncNoFeedback` states what it reports.
- Time. The 150 ms delay is not modelled. The timer coming due is the explicit `TimerFires` event.
- React's scheduling. State updates take effect at once, and the sync effect runs as soon as new props arrive. `useRef` is modelled as a plain field. The `wheelRef.current` null checks are not modelled, because the ref is always attached after mount.
- `new Date()`. Today's date and the current year are constructor parameters. The source reads the current year again on every render; the model fixes it at mount.
- The confirm button and its `alert`, which is a side effect.
- JavaScript numbers are modelled as unbounded integers. The exponent notation that `toString` uses from 1e21 on is not modelled.
- PickerText.FormatDateDigits: states the label only for a month and day below 100. The picker's months and days are all in this range.
- App.tsx (a static layout shell) and vite.config.ts (build configuration).
