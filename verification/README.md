# Who is warmer? — a Dafny model of the page's computations

The page `showTheLocalWeather.js` finds the visitor's location, fetches the
weather and local time there and at a fixed reference place (Ryan, in
Hamilton, Bermuda), and reports whether the visitor is warmer. Around the
network and DOM code sit a few exact computations and one piece of state,
and those are what this project models:

- **Kelvin to Celsius** (`Temperature.KelvinToCelsius`): `Math.round((K - 273.15) * 100) / 100`,
  with `Math.round(x)` as `Floor(x + 1/2)`.
- **Celsius to Fahrenheit** (`Temperature.CelsiusToFahrenheit`): `Math.floor((C * 1.8 + 32) * 100) / 100`,
  which truncates where the Celsius conversion rounds.
- **The verdict of `findOut`** (`Comparison.FindOutVerdict`): the user is
  warmer only when strictly warmer; a tie is "not warmer".
- **Description capitalisation** (`Weather.Capitalize`): `charAt(0).toUpperCase() + slice(1)`.
- **The local-time label of `getTime`** (`IsoTime.LocalTimeLabel`):
  `'Local Time: ' + new Date(t * 1000).toISOString().slice(11, 16)`. The
  whole ISO 8601 string is modelled, calendar date included, and the slice
  is proved to be the two-digit hour of the day, a colon and the two-digit
  minute of the hour.
- **The unit switch** (`UnitToggle`): the units label, the two displayed
  temperatures and the two globals `window.myWeatherCels` /
  `window.ryanWeatherCels`, with `changeUnits`, the label reset of
  `resetElements`, and the display of new Celsius values by a new run.

Modules follow the source's concerns: `Js` (the JavaScript built-ins used:
`Math.round`, `Math.floor`, `slice`, `charAt`, `toUpperCase`), `Temperature`,
`Weather` (one branch's display), `Comparison`, `IsoTime` and `UnitToggle`;
`Wrappers` holds `Option`; `Js.Min` is the bound clamping of `slice`, reused
by the calendar. Numbers are exact reals and strings are sequences
of characters.

The unit switch is modelled as written. The globals are taken from the
display only when one of them is unset, and nothing ever clears them. So
once the switch has been used, a later comparison run does not refresh
them: switching afterwards converts, and then restores, the temperatures
that were shown at the first switch, not the new run's
(`UnitToggle.StaleBaselineAfterNewRun`, `UnitToggle.StaleBaselineExample`).
If the switch was never used before the new run, the first switch captures
the new run's values and nothing is stale. A new run needs the button,
which `findOut` hides and only `resetElements` shows again (through
`errorReceived` after a failure).

## Model

| member | source | states |
|---|---|---|
| Js.MathRound | showTheLocalWeather.js:118 | `Math.round(x)` lies in (x - 1/2, x + 1/2] |
| Js.MathRoundUnique | showTheLocalWeather.js:138 | that interval determines `Math.round` completely, so halves round up |
| Js.MathRoundShift | showTheLocalWeather.js:118 | adding 1 before `Math.round` adds 1 to the result |
| Js.MathFloor | showTheLocalWeather.js:196 | `Math.floor(x)` lies in (x - 1, x] |
| Js.Slice | showTheLocalWeather.js:70 | `slice(from, to)` is the substring between the clamped bounds, empty when from >= to |
| Js.CharAt | showTheLocalWeather.js:121 | `charAt(i)` is the one character at i, or empty past the end |
| Js.ToUpperCase | showTheLocalWeather.js:121 | upper-casing keeps the length and maps each character to its ASCII upper case |
| Temperature.KelvinToCelsius | showTheLocalWeather.js:118 | the Celsius value has two decimals and lies in (exact - 0.005, exact + 0.005] of K - 273.15 |
| Temperature.KelvinToCelsiusCharacterized | showTheLocalWeather.js:138 | the Celsius value is exactly the hundredth in that half-open interval, both directions |
| Temperature.KelvinToCelsiusMonotonic | showTheLocalWeather.js:118 | a higher Kelvin reading never shows a lower Celsius value |
| Temperature.KelvinToCelsiusShift | showTheLocalWeather.js:138 | 0.01 K more shows exactly 0.01 degrees Celsius more |
| Temperature.KelvinToCelsiusExamples | showTheLocalWeather.js:138 | 300 K shows 26.85, 273.15 K shows 0, 0 K shows -273.15 |
| Temperature.CelsiusToFahrenheit | showTheLocalWeather.js:195-198 | the Fahrenheit value has two decimals, is at most C * 1.8 + 32 and more than that minus 0.01 |
| Temperature.CelsiusToFahrenheitCharacterized | showTheLocalWeather.js:195-198 | the Fahrenheit value is exactly the greatest hundredth not above C * 1.8 + 32, both directions |
| Temperature.CelsiusToFahrenheitMonotonic | showTheLocalWeather.js:196 | a higher Celsius value never shows a lower Fahrenheit value |
| Temperature.CelsiusToFahrenheitExamples | showTheLocalWeather.js:197-198 | 0 C shows 32 F, 100 C shows 212 F, -40 C shows -40 F |
| Temperature.FahrenheitTruncates | showTheLocalWeather.js:196 | 0.01 C shows 32.01 F although rounding 32.018 would give 32.02 |
| Weather.Capitalize | showTheLocalWeather.js:121-122 | same length, first character upper-cased (and no longer a lower-case letter), the rest unchanged, empty stays empty |
| Weather.CapitalizeFixedPoints | showTheLocalWeather.js:141-142 | a description is unchanged exactly when it is empty or does not start with a lower-case letter |
| Weather.CapitalizeIdempotent | showTheLocalWeather.js:121-122 | capitalising twice is capitalising once |
| Weather.CapitalizeExamples | showTheLocalWeather.js:141-142 | "clear sky" becomes "Clear sky"; "" and "Rain" are unchanged |
| Weather.RenderWeather | showTheLocalWeather.js:117-123 | a branch shows the rounded Celsius value of the reading (two decimals, within 0.005 of it), the icon URL `https://openweathermap.org/img/w/` + icon + `.png`, and the capitalised description |
| Weather.RenderClearSky | showTheLocalWeather.js:137-143 | a 300 K "clear sky" reading with icon 01d shows 26.85, the 01d icon URL and "Clear sky" |
| Comparison.FindOutVerdict | showTheLocalWeather.js:172-176 | one of the two result elements is always revealed; success exactly when the user's value is strictly greater, not-success exactly when it is less or equal |
| Comparison.TieIsNotSuccess | showTheLocalWeather.js:174-175 | equal temperatures reveal the not-success element |
| Comparison.VerdictSwap | showTheLocalWeather.js:172-176 | the two people cannot both be warmer; with distinct temperatures exactly one is |
| Comparison.VerdictExamples | showTheLocalWeather.js:172-176 | 20 vs 15 is success, 15 vs 15 and 10 vs 15 are not |
| Comparison.CompareReadings | showTheLocalWeather.js:167-176 | a run's verdict is success exactly when the user's rounded Celsius value exceeds Ryan's |
| Comparison.CompareReadingsRespectsKelvin | showTheLocalWeather.js:167-176 | a reading not warmer in Kelvin is never reported warmer; one at least 0.01 K warmer always is |
| Comparison.RoundingCanHideDifference | showTheLocalWeather.js:138 | 300.004 K against 300 K ties at 26.85 and is reported as not warmer |
| IsoTime.CivilFromDays | showTheLocalWeather.js:70 | a day before the year 10000 has a year in 1970..9999, a month in 1..12 and a day in 1..31 |
| IsoTime.CivilFromDaysEpoch | showTheLocalWeather.js:70 | day 0 is 1970-01-01 |
| IsoTime.CivilFromDaysLeapDay | showTheLocalWeather.js:70 | day 11016 is 2000-02-29 |
| IsoTime.CivilFromDaysLastDay | showTheLocalWeather.js:70 | day 2932896 is 9999-12-31 |
| IsoTime.IsoString | showTheLocalWeather.js:70 | `toISOString` is 24 characters `YYYY-MM-DDTHH:mm:ss.sssZ`, and characters 11 to 16 are the hour and minute of the time of day |
| IsoTime.TimeOfDayFields | showTheLocalWeather.js:70 | the hour and minute of `t * 1000` milliseconds are `(t div 3600) mod 24` and `(t div 60) mod 60` |
| IsoTime.LocalTimeLabel | showTheLocalWeather.js:69-70 | the label is `Local Time: ` followed by five characters with a colon in the middle |
| IsoTime.LocalTimeLabelIsClock | showTheLocalWeather.js:69-70 | the label equals the prefix and the zero-padded `(t div 3600) mod 24`, `:`, zero-padded `(t div 60) mod 60` |
| IsoTime.LocalTimeLabelShowsTimeOfDay | showTheLocalWeather.js:69-70 | reading the label back gives hour `(t div 3600) mod 24` < 24 and minute `(t div 60) mod 60` < 60 |
| IsoTime.ParseClockRoundTrip | showTheLocalWeather.js:70 | a zero-padded `HH:MM` reads back as the hour and minute it was written from |
| IsoTime.DecimalRoundTrip | showTheLocalWeather.js:70 | a zero-padded decimal field reads back as its value |
| IsoTime.LocalTimeLabelAtEpoch | showTheLocalWeather.js:69-70 | timestamp 0 shows "Local Time: 00:00" |
| IsoTime.LocalTimeLabelExample | showTheLocalWeather.js:69-70 | timestamp 1500000000 shows "Local Time: 02:40" |
| UnitToggle.CaptureBaseline | showTheLocalWeather.js:188-191 | the globals are taken from the display only when one is unset; once both are set they are kept |
| UnitToggle.ChangeUnits | showTheLocalWeather.js:186-206 | after a switch both globals are set; from "C" the label becomes "F" and the display shows the Fahrenheit values of the globals; from any other label it becomes "C" and shows the globals themselves |
| UnitToggle.ResetElements | showTheLocalWeather.js:9-16 | the reset sets the label to "C" and leaves the globals and the displayed values alone |
| UnitToggle.FindOut | showTheLocalWeather.js:159-164 | a new run shows "C" and its new temperatures but keeps the old globals |
| UnitToggle.ChangeUnitsFlips | showTheLocalWeather.js:194-204 | every switch changes the label: "C" goes to "F", anything else to "C" |
| UnitToggle.TwoSwitchesRestore | showTheLocalWeather.js:194-204 | two switches from "C" show exactly the captured Celsius values again, with no drift |
| UnitToggle.FirstTwoSwitches | showTheLocalWeather.js:188-204 | on a fresh page two switches bring back the displayed values and leave them captured |
| UnitToggle.SwitchParity | showTheLocalWeather.js:194-204 | with a captured baseline, an even number of switches shows it in Celsius, an odd number in Fahrenheit, and the baseline never moves |
| UnitToggle.BaselinePersists | showTheLocalWeather.js:188-191 | once both globals are set, no sequence of switches, resets or new runs changes them |
| UnitToggle.StaleBaselineAfterNewRun | showTheLocalWeather.js:9-16 | after a new run the switch converts, and then restores, the previous run's captured values rather than the new ones |
| UnitToggle.StaleBaselineExample | showTheLocalWeather.js:188-191 | a run showing 10 and 20, then a run showing 30 and 40, then two switches: 10 and 20 are shown |

## Left out

- The `fetch` calls of `getMyLocation`, `getWeather` and `getTime`, their HTTP status test and the extraction of fields from the JSON answers (showTheLocalWeather.js:26-105): network I/O against services not in this model; a weather reading enters the model as a `Weather.WeatherReading` value.
- DOM updates, `errorReceived`, the hiding and showing of result elements and the `DOMContentLoaded` wiring (showTheLocalWeather.js:9-23, 209-214): only the units label, the displayed temperatures and the two globals are modelled. In the code a failing `getTime` calls `errorReceived`, which resets the page and shows the error element; that is page rendering and is not modelled.
- `Promise.all` and the interleaving of the two asynchronous branches (showTheLocalWeather.js:167): concurrency and callback scheduling. A run is modelled as its outcome once both branches have resolved.
- JavaScript coercions: a failed branch resolves to `false`, which the comparison turns into 0, and `changeUnits` multiplies the strings it reads from the page, including `'loading'`. The model works on exact reals, the globals are `Option<real>`, and the displayed temperatures are always numbers.
- IEEE 754 doubles: `273.15` and `1.8` are inexact and the products round in the source; the model uses exact reals.
- Comparison.FindOutVerdict: its `None` result stands for the code's case where neither test holds (a `NaN` operand); over reals it never occurs, which the contract states.
- IsoTime.LocalTimeLabel: requires 0 <= t < 253402300800. Negative timestamps and the six-digit years `toISOString` writes from the year 10000 on are not modelled.
- UnitToggle.CaptureBaseline: the code re-captures when either global is falsy, which also covers an empty displayed text; displayed values are numbers here, so only an unset global triggers a capture.
- Js.ToUpperCase: upper-cases ASCII letters only; Unicode case mapping is not modelled.
