# PCFDateTimeYearOnly, modelled in Dafny

`PCFDateTimeYearOnly` is a custom field control for a low-code platform: a
dropdown of years that binds to a date field. At `init` it builds one entry per
year, from some years before the current year to some years after it. Each entry's
label is the year's decimal text. On every render it hands the dropdown a
"no selection" entry (key -1, label `----`), then the cached entries, and the
bound date's year as the selected key. The dropdown's `onChange` records the chosen
year. `getOutputs` gives the host January 2 of that year, timezone corrected, or no
value.

The model has five modules:

- `Wrappers` (`wrappers.dfy`): `Option` for `undefined`/`null`, and `Result` for
  operations that throw.
- `Decimal` (`decimal.dfy`): `IntToString`, the text that `Number.prototype.toString()`
  gives an integer. `ParseInt` reads it back, and that round trip is proved.
- `YearRange` (`year_range.dfy`): the year entry `{ key, text }` and `Runs`, the
  number of times a counting loop runs. `YearOptions` is the reference definition
  of the list `init` builds. The lemmas prove its length, order, range, labels and
  that it always contains the current year.
- `TimeZone` (`timezone.dfy`): the `correctTimeZone` arithmetic over integer
  minute timestamps. The runtime's date functions are left uninterpreted. Behavior
  code 3 means a timezone-independent field.
- `Control` (`control.dfy`): the class `DateTimeYearOnly` mirrors the TypeScript
  control's fields `_availableOptions`, `_context`, `_currentValue` and `_currentYear`. Its
  `Init` fills the option list with the source's two counting loops; each loop is
  a method of its own. `RenderView`, `OnChange`, `CorrectTimeZone` and
  `GetOutputs` model the rest. The pure parts are module-level functions:
  value resolution, the sentinel-prefixed list, the selection mapping and the
  output guard.

Host inputs are parameters:

- the context property bag is the `Context` datatype;
- the current time is `now`;
- `new Date(y, m, d)`, `getFullYear` and `getTimezoneOffset` are the function
  fields of a `Calendar`;
- `userSettings.getTimeZoneOffsetMinutes` is a function field of `Context`.

A JavaScript exception becomes a `HostError`. This covers a missing saved context,
a missing `value` property and missing field metadata.

Points of the code's behavior that the model keeps as written:

- Counts are not clamped: a zero or negative count makes its loop run zero times
  (index.ts:42, 52). So the list has `Runs(before) + 1 + Runs(after)` entries, with
  `Runs(n) = max(n, 0)`. Only a missing property or a missing raw value falls back
  to 1 (index.ts:41, 51).
- `correctTimeZone` also adds the date's own `getTimezoneOffset()` (index.ts:122),
  so `ExampleSession` states the output with that term.
- `correctTimeZone` reads the field behavior and the user offset function from the
  context saved by `init`, not from the context of the latest `updateView`. The
  model keeps that context in the `context` field.
- `_currentValue` is set only by `onChange`, never from the bound date. Until the
  user picks an entry, `getOutputs` yields no value, even when a date is bound.

## Model

| member | source | states |
|---|---|---|
| `Decimal.IntToString` | PCFDateTimeYearOnly/index.ts:44 | the text of a number is non-empty and starts with `-` exactly when the number is negative |
| `Decimal.NonNegativeText` | PCFDateTimeYearOnly/index.ts:48 | the text of a non-negative year is a run of digits with no leading zero, and denotes that year |
| `Decimal.IntToStringRoundTrip` | PCFDateTimeYearOnly/index.ts:44 | reading back the label of any year gives that year |
| `Decimal.IntToStringInjective` | PCFDateTimeYearOnly/index.ts:54 | two years have the same label exactly when they are the same year |
| `YearRange.YearOption` | PCFDateTimeYearOnly/index.ts:44 | the definition of a year's entry: the year as key and its decimal text as label; `YearOptionsLabels` proves the labels read back as their keys |
| `YearRange.Runs` | PCFDateTimeYearOnly/index.ts:42 | the definition of how often a counting loop runs: `count` times for a positive count, zero times otherwise; `NonPositiveCountsAddNothing` proves what that means for the list |
| `YearRange.YearSpanAt` | PCFDateTimeYearOnly/index.ts:42-55 | position `k` of a run of consecutive entries holds the year `k` places after the first |
| `YearRange.YearOptionsAt` | PCFDateTimeYearOnly/index.ts:41-55 | position `k` of the built list holds the year `currentYear - Runs(before) + k` |
| `YearRange.YearOptionsLength` | PCFDateTimeYearOnly/index.ts:41-55 | the built list has `Runs(before) + 1 + Runs(after)` entries |
| `YearRange.YearOptionsAscending` | PCFDateTimeYearOnly/index.ts:42-54 | keys are consecutive, so they are strictly ascending and distinct |
| `YearRange.YearOptionsRange` | PCFDateTimeYearOnly/index.ts:42-54 | the first key is `currentYear - Runs(before)` and the last is `currentYear + Runs(after)`; a year is offered if and only if it lies between them |
| `YearRange.YearOptionsContainCurrentYear` | PCFDateTimeYearOnly/index.ts:48 | the current year's entry always follows the years before it |
| `YearRange.YearOptionsLabels` | PCFDateTimeYearOnly/index.ts:44-54 | every label is the decimal text of its key and reads back as that key |
| `YearRange.NonPositiveCountsAddNothing` | PCFDateTimeYearOnly/index.ts:42-52 | a zero or negative count adds no year on its side, exactly like a count of 0 |
| `Control.Sentinel` | PCFDateTimeYearOnly/index.ts:102 | the definition of the "no selection" entry, key -1 and label `----`; `PresentedKeysDistinct` proves when its key clashes with a year |
| `Control.CountOrDefault` | PCFDateTimeYearOnly/index.ts:41 | a missing property or a missing raw value counts as 1; otherwise the raw value is used as given |
| `Control.ResolveSelectedValue` | PCFDateTimeYearOnly/index.ts:97 | the selected key is the bound date's year when the property and its value are present, and -1 otherwise; it is total |
| `Control.PresentedOptions` | PCFDateTimeYearOnly/index.ts:102 | the dropdown's list is the sentinel followed by the cached entries, unchanged |
| `Control.SelectionToValue` | PCFDateTimeYearOnly/index.ts:106 | no option or the sentinel yields undefined; any other key is stored as given |
| `Control.SelectionDecidesOutput` | PCFDateTimeYearOnly/index.ts:75-83 | the `getOutputs` guard passes exactly when the selection is an option other than the sentinel, and the stored value is that option's key |
| `Control.ResolvedValueIsOffered` | PCFDateTimeYearOnly/index.ts:97-102 | with no bound date, or a bound year inside the built range, the selected key is one the dropdown offers |
| `Control.PresentedKeysDistinct` | PCFDateTimeYearOnly/index.ts:102 | the presented keys are all distinct exactly when the year -1 lies outside the built range |
| `Control.DateTimeYearOnly.constructor` | PCFDateTimeYearOnly/index.ts:20-22 | a new control has no entries, no saved context and no current value |
| `Control.DateTimeYearOnly.Init` | PCFDateTimeYearOnly/index.ts:32-58 | saves the context, takes the current year from the clock, and leaves exactly `YearOptions(currentYear, count before, count after)` cached; the current value is not touched and the returned view is the render of the new state |
| `Control.DateTimeYearOnly.PushYearsBefore` | PCFDateTimeYearOnly/index.ts:42-45 | the years-before loop leaves the `Runs(count)` years before the current year cached, oldest first |
| `Control.DateTimeYearOnly.PushYearsAfter` | PCFDateTimeYearOnly/index.ts:52-55 | the years-after loop extends the list by the `Runs(count)` years after the current year, in order |
| `Control.DateTimeYearOnly.RenderView` | PCFDateTimeYearOnly/index.ts:94-112 | the dropdown gets the resolved key, the sentinel and then the cached entries, and the host's disabled flag; rendering changes no field |
| `Control.DateTimeYearOnly.OnChange` | PCFDateTimeYearOnly/index.ts:104-108 | the selection is recorded through `SelectionToValue`, and no other field changes |
| `Control.DateTimeYearOnly.CorrectTimeZone` | PCFDateTimeYearOnly/index.ts:114-125 | fails exactly when the saved context, its value property or the field metadata is missing; otherwise gives `Corrected` with the saved field behavior and user offset function |
| `Control.DateTimeYearOnly.GetOutputs` | PCFDateTimeYearOnly/index.ts:73-83 | no value exactly when the current value is -1 or undefined; otherwise the corrected January 2 of that year, or the correction's failure |
| `Control.ExampleSession` | PCFDateTimeYearOnly/index.ts:32-125 | current year 2024 with 2 years before and 1 after offers 2022 to 2025; picking 2023 on a user-local field with host offset 0 outputs January 2, 2023 advanced by that date's local offset |
| `Control.ExampleSessionLabels` | PCFDateTimeYearOnly/index.ts:42-54 | that session's entries are labelled "2022", "2023", "2024" and "2025" |
| `TimeZone.HostOffset` | PCFDateTimeYearOnly/index.ts:116-120 | the definition of the host offset applied: 0 for behavior 3, the host's offset for the date otherwise; the four lemmas below prove its consequences |
| `TimeZone.Corrected` | PCFDateTimeYearOnly/index.ts:122-124 | the definition of the correction: the date moved by its own local offset plus the host offset applied; the four lemmas below prove its consequences |
| `TimeZone.IndependentIgnoresHostOffset` | PCFDateTimeYearOnly/index.ts:118-122 | for behavior 3 the result is `date + localOffset(date)`, whatever the host offset function returns |
| `TimeZone.HostOffsetAddedOnce` | PCFDateTimeYearOnly/index.ts:118-122 | for any other behavior, changing the host offset function changes the result by exactly the change in its value at the date |
| `TimeZone.ZeroHostOffsetIsIndependent` | PCFDateTimeYearOnly/index.ts:118-122 | a host offset of 0 at the date gives the same result as a timezone-independent field |
| `TimeZone.OnlyOffsetsAtDateMatter` | PCFDateTimeYearOnly/index.ts:114-125 | the result depends on the two offset functions only through their values at the date, so the same inputs always give the same date |

## Left out

- `PCFDateTimeYearOnly/DropDownSelector.tsx` is not part of this model. It only forwards its properties to the Fluent UI dropdown; `View` is what it receives.
- React element creation, `ReactDom.render`, and `destroy`'s unmounting are rendering plumbing. `RenderView` returns the properties the dropdown would receive.
- The `notifyOutputChanged` callback and the `container` and `state` parameters of `init` are host plumbing with no effect on the modelled state.
- `updateView` has no member of its own: it only calls `renderView`, which `RenderView` models.
- The JavaScript `Date` calendar is left uninterpreted: `new Date(y, m, d)`, `getFullYear` and `getTimezoneOffset`. So is the host's `getTimeZoneOffsetMinutes`. The model therefore does not capture how `new Date` maps years 0 to 99 into the 1900s.
- TimeZone.Corrected: `setMinutes` on a local-time field is modelled as adding minutes to the timestamp. The model therefore does not capture the shift a daylight-saving change between the two instants would add. Millisecond precision is also not modelled.
- Counts and years are integers. A fractional count would need floating point and is not modelled. Texts of numbers of 10^21 and above use exponent notation in JavaScript and are not modelled; no year reaches them.
- The non-null assertion on `attributes` is modelled as the failure `AttributesMissing`, which is what happens at run time when the metadata is absent.
