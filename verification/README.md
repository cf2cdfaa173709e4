# What If Time: a verified model of the TimeConfig component

The TimeConfig component lets a user redefine six time units. Each one says
how many units of one size make the next larger unit: seconds per minute,
minutes per hour, hours per day, days per week, weeks per month and months
per year. The component then shows the results:

- a converter between any two of the units second … year;
- a narrative that compares the custom calendar with Earth time.

This project models the component's arithmetic core in Dafny and proves what
it promises:

- `time_units.dfy` (module `TimeUnits`): the six-field configuration record, its
  defaults 60/60/24/7/4/12, the clamp `Math.max(Number(value) || 1, 1)` and the
  update that replaces exactly one field.
- `derivation.dfy` (module `Derivation`): the running products secondsPerHour …
  secondsPerYear, the seven-key conversion table, and
  `timeRatio = secondsPerYear / 31557600`. `Length` is an independent reference
  definition: unit number n lasts the product of the first n fields.
- `converter.dfy` (module `Converter`): the partial lookup-and-divide converter
  and its laws (identity, reciprocal, chaining, the meaning of each field, unknown names).
- `narrative.dfy` (module `Narrative`): the comparisons that pick words and numbers
  in the explanatory text, `Math.round` stated as "nearest integer, halves up",
  the calendar summary, and the year-ratio wording.
- `labels.dfy` (module `Labels`): the camelCase label humaniser.
- `component.dfy` (module `Component`): the stateful part, a class holding
  `timeUnits`, `fromUnit` and `toUnit`, with one method per handler.
- `optional.dfy` (module `Optional`): `Option`, which stands for a JavaScript
  `NaN`/`undefined` result.

Modelling choices:

- Field values are `real`, because the clamp keeps fractions such as 1.5.
  Every real product in the source is exact here. The denominator
  60·60·24·365.25 is exactly 31557600, so `timeRatio` is an exact rational.
- JavaScript's `Number(value)` is an abstract parse result `Option<real>`,
  where `None` is NaN. The empty input parses to 0.
- The converter's quotient is `Option<real>`. It is `None` when a name is not
  in the table, because the lookup gives `undefined` and the quotient is NaN.
  It is also `None` when the divisor is 0.
- Three facts about the code shape the contracts:
  - A fraction such as 1.5 passes the clamp and is stored as it is, although
    the labels speak of unit counts.
  - With a field equal to 1, two neighbouring derived counts are equal. The
    chain of counts is therefore proved non-decreasing, not increasing.
  - The initial target unit is `"hours"`, which is not a key of the table, so
    the initial conversion is undefined (`DefaultConversions`).
- `Component.Session` is a worked example of the class's contracts. The initial
  selection gives no number: the page shows NaN, and the model returns None.
  Choosing "hour" then shows 24, and editing the day to 30
  hours changes only that field.

## Model

| member | source | states |
|---|---|---|
| `TimeUnits.Config.With` | src/components/TimeConfig.tsx:81 | the spread update sets the named field to the new value and leaves the other five as they were |
| `TimeUnits.NumberOrOne` | src/components/TimeConfig.tsx:80 | `Number(value) \|\| 1` is never 0: NaN and 0 become 1, and any other parsed number, negative ones included, passes through unchanged |
| `TimeUnits.Clamp` | src/components/TimeConfig.tsx:80 | the stored value is at least 1; it equals the parsed number when that is at least 1, and is 1 for NaN, zero, negative or below-1 input |
| `TimeUnits.ClampIdempotent` | src/components/TimeConfig.tsx:80 | clamping a stored value again gives the same value |
| `TimeUnits.ClampExamples` | src/components/TimeConfig.tsx:80 | NaN, 0 (the empty input), -5 and 0.5 are stored as 1; 1.5 is stored as 1.5 |
| `TimeUnits.Update` | src/components/TimeConfig.tsx:78-82 | one input event stores the clamped value in its field, keeps the other five fields, and keeps every field at least 1 |
| `TimeUnits.UpdateIdempotent` | src/components/TimeConfig.tsx:80-81 | repeating the same input event changes nothing further |
| `TimeUnits.UpdateOverrides` | src/components/TimeConfig.tsx:80-81 | a later edit of a field fully overrides an earlier edit of it |
| `TimeUnits.DefaultsValid` | src/components/TimeConfig.tsx:14-21 | the defaults 60/60/24/7/4/12 satisfy the at-least-1 invariant |
| `Derivation.Length` | src/components/TimeConfig.tsx:39-44 | reference length of a unit as the product of the fields below it; at least 1 under the invariant |
| `Derivation.Derive` | src/components/TimeConfig.tsx:38-69 | the table has exactly the seven keys second … year, second maps to 1 and minute to secondsPerMinute, and timeRatio times 31557600 is secondsPerYear |
| `Derivation.StandardSecondsPerYearValue` | src/components/TimeConfig.tsx:57 | the standard year 60·60·24·365.25 is exactly 31557600 seconds |
| `Derivation.DeriveMatchesLadder` | src/components/TimeConfig.tsx:39-44 | secondsPerHour … secondsPerYear are the running products of the fields |
| `Derivation.TableMatchesLadder` | src/components/TimeConfig.tsx:47-55 | each of the seven names maps to the length of its unit in seconds |
| `Derivation.LengthMonotone` | src/components/TimeConfig.tsx:39-44 | with every field at least 1, a larger unit is never shorter than a smaller one |
| `Derivation.DerivedChainNonDecreasing` | src/components/TimeConfig.tsx:39-44 | 1 ≤ secondsPerMinute ≤ secondsPerHour ≤ … ≤ secondsPerYear under the invariant |
| `Derivation.DefaultsDerived` | src/components/TimeConfig.tsx:14-58 | the defaults give 3600, 86400, 604800, 2419200 and 29030400 seconds, and a ratio 29030400/31557600 below 1 |
| `Converter.Convert` | src/components/TimeConfig.tsx:72-76 | a result exists exactly when both names are in the table and the divisor is non-zero, and then result × to-length = from-length |
| `Converter.Conversion` | src/components/TimeConfig.tsx:72-76 | the shown conversion exists only between two unit names, and always between them when every field is at least 1 |
| `Converter.ConversionOfKeys` | src/components/TimeConfig.tsx:72-76 | between two unit names of a valid configuration the conversion exists and is the ratio of the two unit lengths |
| `Converter.ConversionOfCalendarUnits` | src/components/TimeConfig.tsx:72-76 | month→day and year→week are the quotients of the derived counts |
| `Converter.ConversionOfUnknownName` | src/components/TimeConfig.tsx:73-75 | a name outside the seven, such as "hours", gives no conversion |
| `Converter.ConvertIdentity` | src/components/TimeConfig.tsx:72-76 | on any table, converting a present unit of non-zero length to itself gives 1 |
| `Converter.ConvertReciprocal` | src/components/TimeConfig.tsx:72-76 | on any table, the two directions between present non-zero units multiply to 1 |
| `Converter.ConvertChains` | src/components/TimeConfig.tsx:72-76 | on any table, converting through an intermediate unit equals converting directly |
| `Converter.ConversionIdentity` | src/components/TimeConfig.tsx:72-76 | converting a unit to itself gives 1 |
| `Converter.ConversionReciprocal` | src/components/TimeConfig.tsx:72-76 | conversion(a, b) · conversion(b, a) = 1 |
| `Converter.ConversionChains` | src/components/TimeConfig.tsx:72-76 | conversion(a, b) · conversion(b, c) = conversion(a, c) |
| `Converter.ConversionOfAdjacentUnits` | src/components/TimeConfig.tsx:47-55 | one unit converts to exactly its configured count of the next smaller unit |
| `Converter.DefaultConversions` | src/components/TimeConfig.tsx:24-25 | under the defaults day→hour is 24, and the initial selection day→"hours" has no result |
| `Narrative.DayLengthWord` | src/components/TimeConfig.tsx:172 | the first paragraph says "longer" iff a day has more than 24 hours, otherwise "shorter" |
| `Narrative.DayDifference` | src/components/TimeConfig.tsx:178-185 | the day bullet appears iff hoursPerDay ≠ 24, reports a positive amount, and says "longer" when hoursPerDay > 24 and "shorter" otherwise |
| `Narrative.DayDifferenceFaithful` | src/components/TimeConfig.tsx:178-185 | the day length can be read back exactly from the bullet (24 ± amount, or 24 when absent) |
| `Narrative.DayWordsAgree` | src/components/TimeConfig.tsx:172-185 | when the bullet appears its word matches the first paragraph's; at exactly 24 hours the paragraph still says "shorter" and no bullet appears |
| `Narrative.ThirtyHourDay` | src/components/TimeConfig.tsx:178-185 | a 30-hour day is reported as 6 hours longer |
| `Narrative.WeekDifference` | src/components/TimeConfig.tsx:186-193 | the week bullet appears iff daysPerWeek ≠ 7, reports a positive amount, and says "more" when daysPerWeek > 7 and "fewer" otherwise |
| `Narrative.WeekDifferenceFaithful` | src/components/TimeConfig.tsx:186-193 | the week length can be read back exactly from the bullet |
| `Narrative.Round` | src/components/TimeConfig.tsx:195-201 | `Math.round` gives the integer within half of x, halves rounded up |
| `Narrative.LessonMinutes` | src/components/TimeConfig.tsx:195 | the lesson figure is within half a minute of 45 · secondsPerMinute / 60 |
| `Narrative.NapMinutes` | src/components/TimeConfig.tsx:198 | the nap figure is within half a minute of 20 · secondsPerMinute / 60 |
| `Narrative.MarathonHours` | src/components/TimeConfig.tsx:201 | the marathon figure is within half an hour of 4 · secondsPerYear / 31557600 |
| `Narrative.RoundedFigures` | src/components/TimeConfig.tsx:194-201 | a 120-second minute makes the lesson 90 minutes; the defaults give 45, 20 and 4 |
| `Narrative.CalendarAgreesWithConverter` | src/components/TimeConfig.tsx:205-209 | the days per month and weeks per year in the calendar paragraph equal the converter's month→day and year→week results |
| `Narrative.MonthInDays` | src/components/TimeConfig.tsx:207 | weeksPerMonth · daysPerWeek is the month→day conversion |
| `Narrative.YearInWeeks` | src/components/TimeConfig.tsx:209 | monthsPerYear · weeksPerMonth is the year→week conversion |
| `Narrative.DaysPerMonth` | src/components/TimeConfig.tsx:207 | a month lasts weeksPerMonth · daysPerWeek day lengths, at least 1 under the invariant |
| `Narrative.WeeksPerYear` | src/components/TimeConfig.tsx:209 | a year lasts monthsPerYear · weeksPerMonth week lengths, at least 1 under the invariant |
| `Narrative.YearWord` | src/components/TimeConfig.tsx:214 | "shorter" iff the ratio is below 1, otherwise "longer" |
| `Narrative.FlowWord` | src/components/TimeConfig.tsx:217 | "faster" iff the ratio is below 1, otherwise "slower" |
| `Narrative.YearDeviation` | src/components/TimeConfig.tsx:215 | the printed "factor" is the non-negative distance of the ratio from 1 |
| `Narrative.YearsPerEarthYear` | src/components/TimeConfig.tsx:219-221 | the printed years-per-Earth-year is at least 1 and is either the ratio or its reciprocal |
| `Narrative.YearWordsFromConfig` | src/components/TimeConfig.tsx:212-223 | the year and flow words are decided by secondsPerYear < 31557600, and the printed figure is the longer year over the shorter |
| `Narrative.DefaultYearIsShorter` | src/components/TimeConfig.tsx:212-223 | under the defaults the year is "shorter" and time flows "faster" |
| `Labels.CapitalizeFirst` | src/components/TimeConfig.tsx:107 | only the first character changes, and it is upper-cased |
| `Labels.SpaceBeforeCapitals` | src/components/TimeConfig.tsx:106 | the insertion never shortens the key and leaves text without capitals unchanged |
| `Labels.Humanize` | src/components/TimeConfig.tsx:105-107 | the label is never shorter than the key and never starts with a lower-case letter |
| `Labels.CapitalsArePreceded` | src/components/TimeConfig.tsx:106 | after the insertion every capital letter has a space immediately before it |
| `Labels.RemoveSpacesUndoesInsertion` | src/components/TimeConfig.tsx:106 | the insertion adds only spaces: removing them gives back a key that had none |
| `Labels.SpaceBeforeCapitalsAppend` | src/components/TimeConfig.tsx:106 | the insertion works character by character, so it distributes over concatenation |
| `Labels.SpaceBeforeCapitalisedWord` | src/components/TimeConfig.tsx:106 | a capitalised word gains exactly one leading space |
| `Labels.HumanizeThreeWords` | src/components/TimeConfig.tsx:105-107 | a three-word camelCase key becomes three space-separated words with the first letter upper-cased |
| `Labels.SecondsPerMinuteLabel` | src/components/TimeConfig.tsx:105-107 | `secondsPerMinute` is labelled "Seconds Per Minute" |
| `Component.TimeConfigState.constructor` | src/components/TimeConfig.tsx:14-25 | the initial state is the defaults with selection "day" → "hours" |
| `Component.TimeConfigState.HandleChange` | src/components/TimeConfig.tsx:78-82 | the edited field becomes the clamped value (at least 1), the other fields and both selections are unchanged, and the invariant holds |
| `Component.TimeConfigState.SetFromUnit` | src/components/TimeConfig.tsx:24 | only the source selection changes |
| `Component.TimeConfigState.SetToUnit` | src/components/TimeConfig.tsx:25 | only the target selection changes |
| `Component.TimeConfigState.Calculations` | src/components/TimeConfig.tsx:38-69 | the memoised derivation of the current state has a positive ratio and a non-decreasing chain of counts |
| `Component.TimeConfigState.CurrentConversion` | src/components/TimeConfig.tsx:72-76 | the displayed conversion exists exactly when both selections are unit names, and is 1 when they are the same |

## Left out

- React machinery is not modelled: `useState`, `useMemo`, re-rendering and the
  JSX layout (src/components/TimeConfig.tsx:1, 84-228). Memoisation is a plain
  function of the state here.
- The widget library under `@/components/ui/` is not part of this model. Its
  select controls offer exactly the seven unit names, but `SetFromUnit` and
  `SetToUnit` accept any string, as the handlers do.
- Number formatting is not modelled: `toLocaleString` and `toFixed(2)`. Only the
  numbers being formatted are modelled.
- JavaScript's string-to-number parsing is not modelled. The parse result is a
  parameter (`Option<real>`, where `None` is NaN).
- IEEE double rounding, overflow to `Infinity` and an input of `"Infinity"` are
  not modelled. Arithmetic is exact over unbounded reals; the source sets no
  overflow policy.
- `HandleChange` takes a `Field`, not a free-form element id. The ids are always
  the six state keys, because the inputs are rendered from them. An unknown id
  would add a seventh property in JavaScript.
- `Labels.CapitalizeFirst` upper-cases ASCII letters only. Unicode case mapping
  in `toUpperCase` is not modelled; the keys are ASCII.
- `Converter.Convert` returns `None` for both NaN and ±Infinity. It does not
  tell apart the two non-finite results of a zero divisor, which cannot occur
  once the fields are at least 1.
- `Labels.SecondsPerMinuteLabel` spells out one of the six labels. The other
  five follow from `Labels.HumanizeThreeWords`; they are not written out.
