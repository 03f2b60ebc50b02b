# World Time Converter — a Dafny model of its core

The dashboard shows a primary location (found by geolocation or London as
a fallback) and up to two more cities. Each card shows the local time,
the UTC offset and a day-or-night flag. A secondary card also shows its
distance in hours from the primary location, and, while a custom time is
set, a "Next day / Previous day / Same day" label.
This project models and proves properties of the following parts:

- `time_utils.dfy` (module `TimeUtils`), from `src/utils/timeUtils.ts`. It
  covers the offset text and day label of `formatTime`, `getTimeDifference`,
  `isDaytime` and `getDayLabel`. The timezone database is a parameter
  `resolve(t, zone)`. It gives the wall clock of `zone` at instant `t`, in
  minutes since 1970-01-01 00:00 read as UTC. `None` stands for a zone id
  the runtime rejects, which is where the source's `try` blocks fall into
  their `catch` branches. Day numbers come from the proleptic Gregorian
  calendar, as `Date.getDate` reports them.
- `location_service.dfy` (module `LocationService`), from
  `src/services/locationService.ts`. It holds the 57-entry directory in
  source order, the nearest-entry scan of `getLocationFromCoords` as a loop
  over the table, and the case-insensitive substring search capped at 8
  results.
- `app.dfy` (module `App`), from `src/App.tsx`. The component state is a
  class `Session` whose methods are the handlers: theme start-up and
  toggle, `initializeUserLocation`, `addLocation`, `removeLocation`, the
  add-form and converter buttons, and `resetToCurrentTime`. Each handler
  is one atomic step. The awaited geolocation outcome, weather result and
  `Date.now()` id are parameters.
- `location_input.dfy` (module `LocationInput`), from
  `src/components/LocationInput.tsx`. It models the search box as a class
  `SearchBox` with query, results, visibility and highlighted row, plus
  keyboard navigation and `getFlagEmoji`.
- `types.dfy` (module `Types`), from `src/types/index.ts`. It holds the
  record shapes, `Option`, and a subsequence relation used to state that
  filters keep order.

Behaviour of the code as written, kept in the model:

- `removeLocation` keeps only entries that are primary and whose id
  differs from the target, so removing one secondary card also drops the
  other one (`RemoveDropsOtherSecondaries`).
- The offset's `padStart(2, '0')` counts the minus sign. A zone five hours
  behind UTC is therefore shown as `-5:00`, but one five hours ahead as
  `+05:00` (`OffsetStringNegativeSamples`).
- `toFixed(0)` rounds half-hour offsets away from zero: `+5:30` becomes
  `+06:00` and `-3:30` becomes `-4:00`.
- `getTimeDifference` subtracts full local date-times, not times of day.
  Across midnight, a zone that is 23 hours behind is therefore reported as
  "23h behind", never "1h ahead". The model follows the code here too.
- `getDayLabel` compares only day-of-month numbers. On 1 January against
  31 December it says "Previous day" (`MonthWrapReadsAsPreviousDay`).
- A saved empty theme string counts as "nothing saved" (`!savedTheme`).

## Model

| member | source | states |
|---|---|---|
| TimeUtils.Decimal | src/utils/timeUtils.ts:76 | `${n}` of a natural is non-empty, all digits, and starts with '0' only for zero |
| TimeUtils.DecimalRoundTrip | src/utils/timeUtils.ts:76 | reading the decimal text of n back as a number gives n |
| TimeUtils.LeadingZero | src/utils/timeUtils.ts:38 | the '0' that padStart puts in front leaves the digits' value unchanged |
| TimeUtils.DecimalLength | src/utils/timeUtils.ts:38 | one digit below 10, two below 100 (what padStart to width 2 depends on) |
| TimeUtils.TimeDifference | src/utils/timeUtils.ts:61-85 | "Unknown" exactly when either zone cannot be resolved; "Same time" exactly when both resolve and their wall clocks are less than an hour apart |
| TimeUtils.SameZoneSameTime | src/utils/timeUtils.ts:69-71 | a resolvable zone is "Same time" with itself |
| TimeUtils.TimeDifferenceDirection | src/utils/timeUtils.ts:73-80 | an hour or more apart: "{M} ahead" iff the target's clock is later, "{M} behind" iff it is earlier, where {M} is the magnitude text (MagnitudeText) |
| TimeUtils.DirectionSuffixes | src/utils/timeUtils.ts:78-80 | an "ahead"/"behind" label can never equal "Same time" or "Unknown" |
| TimeUtils.TimeDifferenceAntisymmetric | src/utils/timeUtils.ts:61-85 | swapping the two zones turns "{M} ahead" into "{M} behind" and back |
| TimeUtils.MagnitudeTextReadsBack | src/utils/timeUtils.ts:73-76 | the "{H}h" / "{H}h {M}m" text of MagnitudeText reads back as whole hours and the remaining minutes, with the minutes part present iff they are not 0 |
| TimeUtils.LocalHour | src/utils/timeUtils.ts:89-95 | the hour of a wall clock lies in 0..23 |
| TimeUtils.IsDaytime | src/utils/timeUtils.ts:87-102 | an unresolvable zone counts as daytime; a resolvable one is daytime iff its minute of the day lies in [06:00, 18:00) |
| TimeUtils.DaytimeByMinuteOfDay | src/utils/timeUtils.ts:97 | the hour test 6 <= hour < 18 holds iff the minute of the day lies in [06:00, 18:00) |
| TimeUtils.NoonAndMidnight | src/utils/timeUtils.ts:97 | noon is daytime, midnight is not |
| TimeUtils.EraDay | src/utils/timeUtils.ts:109-110 | the day within the 400-year Gregorian era lies in 0..146096 |
| TimeUtils.MarchDayOfYear | src/utils/timeUtils.ts:109-110 | the day of the March-based year lies in 0..365 |
| TimeUtils.DayFromMarchDay | src/utils/timeUtils.ts:109-110 | the day of the month lies in 1..31 |
| TimeUtils.DayOfMonth | src/utils/timeUtils.ts:109-110 | getDate of a wall clock lies in 1..31 |
| TimeUtils.DayOfMonthNextDay | src/utils/timeUtils.ts:109-110 | a day later, getDate is one more, or 1 after a day numbered 28 or more |
| TimeUtils.EraDayNext | src/utils/timeUtils.ts:109-110 | a day later, the day of the era is one more, or 0 after the era's last day |
| TimeUtils.MarchDayNext | src/utils/timeUtils.ts:109-110 | within an era, the next day of the March-based year is one more, or 0 after day 364 or 365 |
| TimeUtils.DayFromMarchDayNext | src/utils/timeUtils.ts:109-110 | within a March-based year, the next day of the month is one more, or 1 after a day numbered 28 or more |
| TimeUtils.DayLabel | src/utils/timeUtils.ts:104-122 | The label is "" exactly when either zone cannot be resolved, and otherwise "Next day", "Previous day" or "Same day" exactly when the zone's day of the month is greater than, less than or equal to the reference's. |
| TimeUtils.DayLabelByCalendarDay | src/utils/timeUtils.ts:106-118 | two wall clocks on the same calendar day read "Same day"; a zone on the next calendar day reads "Next day", or "Previous day" only after a reference day numbered 28 or more |
| TimeUtils.DayLabelSameZone | src/utils/timeUtils.ts:116-118 | a resolvable zone is "Same day" against itself |
| TimeUtils.DayLabelAntisymmetric | src/utils/timeUtils.ts:112-118 | swapping zone and reference swaps "Next day" and "Previous day" and keeps "Same day" |
| TimeUtils.NewYearIsFirst | src/utils/timeUtils.ts:109 | 2024-01-01 is day 1 of its month |
| TimeUtils.NewYearsEveIsThirtyFirst | src/utils/timeUtils.ts:110 | 2023-12-31 is day 31 of its month |
| TimeUtils.MonthWrapReadsAsPreviousDay | src/utils/timeUtils.ts:109-115 | a zone already in 1 January, against one still in 31 December, is labelled "Previous day" although its clock is later |
| TimeUtils.RoundHalfAway | src/utils/timeUtils.ts:36-38 | toFixed(0) of the hours is within 30 minutes of the offset, ties go away from zero, and its sign follows the offset |
| TimeUtils.ToFixed0 | src/utils/timeUtils.ts:36-38 | the text starts with '-' iff the offset is negative (kept when it rounds to 0), followed by the decimal digits of the rounded hours' magnitude |
| TimeUtils.PadStart | src/utils/timeUtils.ts:38 | padStart keeps the text at the end and fills the front up to the width |
| TimeUtils.OffsetString | src/utils/timeUtils.ts:32-38 | the offset text ends in ":00", is at least 5 characters, starts with '+' iff the offset is not negative and with '-' iff it is negative |
| TimeUtils.ParseOffsetOf | src/utils/timeUtils.ts:38 | a sign, digits and ":00" read back as the signed digit value (the inverse used by the round trip) |
| TimeUtils.OffsetStringRoundTrip | src/utils/timeUtils.ts:32-38 | the offset text always reads back as the offset rounded to whole hours |
| TimeUtils.AheadOffsetRoundTrip | src/utils/timeUtils.ts:36-38 | the round trip for zones at or ahead of UTC, through the zero padding |
| TimeUtils.ParseAhead | src/utils/timeUtils.ts:38 | "+", the hours padded to two digits and ":00" read back as the hours |
| TimeUtils.BehindOffsetRoundTrip | src/utils/timeUtils.ts:36-38 | the round trip for zones behind UTC |
| TimeUtils.BehindOffsetText | src/utils/timeUtils.ts:36-38 | behind UTC the text is "-", the unpadded hours and ":00" |
| TimeUtils.ParseBehind | src/utils/timeUtils.ts:38 | "-", the hours and ":00" read back as minus the hours |
| TimeUtils.OffsetStringWidth | src/utils/timeUtils.ts:38 | six characters ahead of UTC (below 100 h); five for a one-digit negative hour, because padStart counts the minus sign |
| TimeUtils.OffsetStringPlusFive | src/utils/timeUtils.ts:36-38 | +5 h gives "+05:00" |
| TimeUtils.OffsetStringPlusTen | src/utils/timeUtils.ts:36-38 | +10 h gives "+10:00" |
| TimeUtils.OffsetStringZero | src/utils/timeUtils.ts:36-38 | a zero offset gives "+00:00" |
| TimeUtils.OffsetStringNegativeSamples | src/utils/timeUtils.ts:36-38 | -5 h gives "-5:00" and -10 h gives "-10:00" |
| TimeUtils.OffsetStringHalfHourSamples | src/utils/timeUtils.ts:36-38 | +5:30 gives "+06:00" and -3:30 gives "-4:00" |
| TimeUtils.FormatTime | src/utils/timeUtils.ts:1-59 | the offset field always has the offset shape; the day label is "" exactly when the zone or UTC cannot be resolved, and otherwise it is the zone's DayLabel against "UTC" |
| TimeUtils.FormatTimeResolved | src/utils/timeUtils.ts:32-46 | when both zones resolve, the offset is the text of local minus UTC and the label is the zone's DayLabel against "UTC", one of the three day comparisons |
| TimeUtils.FormatTimeAgainstUtc | src/utils/timeUtils.ts:32-38 | a zone `offset` minutes ahead of UTC gets an offset text that reads back as `offset` rounded to whole hours |
| TimeUtils.FormatTimeFallback | src/utils/timeUtils.ts:48-57 | an unresolvable zone gets "+00:00" and an empty label, and that text reads as a zero offset |
| TimeUtils.FallbackOffsetReadsZero | src/utils/timeUtils.ts:55 | the fallback text "+00:00" reads as zero hours |
| LocationService.DirectoryShape | src/services/locationService.ts:4-73 | the directory has 57 entries in source order, New York first, London at index 12 and Budapest last |
| LocationService.SqDistance | src/services/locationService.ts:108-110 | the squared distance is never negative |
| LocationService.NearestEntry | src/services/locationService.ts:104-117 | the scan returns the first entry of smallest distance, or entry 0 when no distance is below Number.MAX_VALUE |
| LocationService.GetLocationFromCoords | src/services/locationService.ts:101-123 | the result is a directory entry that the scan picks for the coordinates: the first of smallest distance, or entry 0 when none is below Number.MAX_VALUE |
| LocationService.ClosestIsUnique | src/services/locationService.ts:104-117 | only one entry can be the scan's pick, so the lookup is a function of the coordinates |
| LocationService.LondonCoordinatesGiveLondon | src/services/locationService.ts:101-117 | London's own coordinates pick the London entry (entry 12, line 20) |
| LocationService.Filter | src/services/locationService.ts:129-131 | the filter never grows the table, and everything it keeps matches the query |
| LocationService.FilterProperties | src/services/locationService.ts:129-131 | the filter keeps, in table order, exactly the entries whose lower-cased name or country contains the lower-cased query (Matches, with Lower as the ASCII toLowerCase) |
| LocationService.FilterAppend | src/services/locationService.ts:129-131 | filtering a concatenation filters each part |
| LocationService.FilterSplit | src/services/locationService.ts:129-131 | the filter of a table is the filter of a prefix followed by the filter of the rest |
| LocationService.SearchLocations | src/services/locationService.ts:125-137 | at most 8 results, all matching, in directory order (a subsequence of the directory) |
| LocationService.SearchKeepsEarliestMatches | src/services/locationService.ts:129-132 | no match is skipped: the matches among the first j entries, when at most 8, begin the result |
| LocationService.SearchCompleteBelowCap | src/services/locationService.ts:129-132 | with fewer than 8 results, every matching directory entry is among them |
| LocationService.FilterEmptyQuery | src/services/locationService.ts:128-131 | the empty query matches every entry |
| LocationService.EmptyQueryGivesFirstEight | src/services/locationService.ts:125-132 | the empty query returns the first 8 entries, New York to São Paulo |
| LocationService.SearchIgnoresCase | src/services/locationService.ts:128-131 | queries that differ only in ASCII case return the same results |
| LocationService.FilterSameQuery | src/services/locationService.ts:128-131 | queries with the same lower-case form filter alike |
| App.InitialDark | src/App.tsx:21-23 | a saved "dark" gives dark and any other non-empty saved value light, whatever the system prefers; with nothing (or "") saved, the system preference decides |
| App.StoredThemeRestores | src/App.tsx:114-117 | the value toggleTheme stores (ThemeValue) is read back as the same theme on the next start |
| App.RemoveFilter | src/App.tsx:111 | the filter never grows the list, and everything it keeps is primary with an id other than the target |
| App.RemoveFilterKeeps | src/App.tsx:110-112 | removal keeps, in order, exactly the primary entries whose id differs from the target, not just everything but the target |
| App.SecondariesAllDropped | src/App.tsx:111 | the filter empties a list that has no primary entry |
| App.RemoveDropsOtherSecondaries | src/App.tsx:110-112 | removing one secondary card from [primary, a, b] also drops b |
| App.Session.constructor | src/App.tsx:12-17 | the initial state: no locations, loading, light theme, form closed, current time, converter off |
| App.Session.InitTheme | src/App.tsx:19-31 | the theme is dark iff "dark" is saved, or nothing (or "") is saved and the system prefers dark |
| App.Session.InitializeUserLocation | src/App.tsx:38-83 | afterwards there is exactly one card, primary, with id "1", and loading is off. On success it has the device's coordinates and the naming of the scan's pick; on failure it is London with the awaited weather |
| App.Session.AddLocation | src/App.tsx:85-108 | at three cards nothing changes; otherwise a non-primary card with the fresh id and the record's naming and coordinates (NewLocation) is appended and the form closes. At most three cards, only the first primary, a primary first card stays first |
| App.Session.RemoveLocation | src/App.tsx:110-112 | the list becomes the filter of the old list; at most one card is left, and it is the primary card when its id was not the target |
| App.Session.OpenAddForm | src/App.tsx:223 | the add form opens |
| App.Session.CancelAddForm | src/App.tsx:219 | the add form closes |
| App.Session.ToggleTheme | src/App.tsx:114-124 | the theme flips and the stored value names the new theme |
| App.Session.OpenConverter | src/App.tsx:165 | converter mode turns on |
| App.Session.SetCustomTime | src/App.tsx:196 | the reference instant becomes the converter's value |
| App.Session.ResetToCurrentTime | src/App.tsx:126-129 | back to the current time, converter mode off |
| LocationInput.NextIndex | src/components/LocationInput.tsx:75-80 | from no selection or a valid row ArrowDown lands on a valid row; from none, on the first |
| LocationInput.PrevIndex | src/components/LocationInput.tsx:81-86 | from no selection or a valid row ArrowUp lands on a valid row; from none, on the last |
| LocationInput.ArrowsAreInverse | src/components/LocationInput.tsx:75-86 | on the rows, ArrowUp undoes ArrowDown and ArrowDown undoes ArrowUp, wrap-around included |
| LocationInput.DownTimesAdd | src/components/LocationInput.tsx:77-79 | pressing ArrowDown a times and then b times is pressing it a + b times |
| LocationInput.DownTimesAdvances | src/components/LocationInput.tsx:77-79 | below the last row each ArrowDown moves one row down |
| LocationInput.DownTimesFullCycle | src/components/LocationInput.tsx:77-79 | pressing ArrowDown once per row returns to the starting row |
| LocationInput.CodeUnits | src/components/LocationInput.tsx:36 | a character is one UTF-16 code unit below U+10000 and otherwise a surrogate pair that decodes back to it |
| LocationInput.Utf16 | src/components/LocationInput.tsx:36 | a string has at least as many UTF-16 code units as characters, each unit in 0..0xFFFF |
| LocationInput.Utf16LengthIsCharCount | src/components/LocationInput.tsx:36 | `.length` equals the number of characters iff no character lies above U+FFFF |
| LocationInput.Utf16OfBasicPlane | src/components/LocationInput.tsx:103 | without characters above U+FFFF, the code units `charCodeAt` reads are the characters' codes |
| LocationInput.SupplementaryCharIsSearched | src/components/LocationInput.tsx:36 | a single character above U+FFFF, such as an emoji, has length 2 and so reaches the search threshold |
| LocationInput.SearchBox.constructor | src/components/LocationInput.tsx:11-15 | empty query and results, list hidden, no row highlighted |
| LocationInput.SearchBox.HandleSearch | src/components/LocationInput.tsx:35-55 | under two UTF-16 code units the list is cleared and hidden; otherwise it holds the search results and is shown; the highlight is reset either way |
| LocationInput.SearchBox.HandleInputChange | src/components/LocationInput.tsx:57-61 | the query becomes the typed value; under two UTF-16 code units the list is cleared and hidden, otherwise it is that value's search and is shown |
| LocationInput.SearchBox.HandleLocationSelect | src/components/LocationInput.tsx:63-69 | the chosen record is handed on unchanged and the box is reset |
| LocationInput.SearchBox.ClickOutside | src/components/LocationInput.tsx:23-33 | a click outside hides the list when its container is rendered (ListRendered: shown and non-empty, lines 140-143) and changes nothing otherwise, so only the empty "No locations found" state can stay shown |
| LocationInput.SearchBox.HandleKeyDown | src/components/LocationInput.tsx:71-98 | no key does anything while the list is hidden or empty. The arrows move the highlight with wrap-around. Enter hands on the highlighted record and resets the box, or does nothing with no highlight. Escape hides the list and clears the highlight. Other keys do nothing |
| LocationInput.Upper | src/components/LocationInput.tsx:102 | ASCII upper-casing keeps the length, leaves no ASCII lower-case letter, keeps every other character, and is invisible to the search's ASCII lower-casing |
| LocationInput.UpperKeepsUtf16Length | src/components/LocationInput.tsx:102 | ASCII upper-casing keeps the number of UTF-16 code units |
| LocationInput.FlagEmoji | src/components/LocationInput.tsx:100-104 | the flag has one code point per UTF-16 code unit of the code |
| LocationInput.FlagEmojiRoundTrip | src/components/LocationInput.tsx:100-104 | each code unit of the upper-cased code becomes itself plus 127397, except line terminators, which stay; removing the shift gives the code units back |
| LocationInput.LettersBecomeRegionalIndicators | src/components/LocationInput.tsx:100-104 | a letter of either case becomes the regional indicator U+1F1E6 + its alphabet position |
| LocationInput.FlagSamples | src/components/LocationInput.tsx:100-104 | "A" gives U+1F1E6, and "gb" gives the same flag as "GB" |
| LocationInput.FlagEmojiInjective | src/components/LocationInput.tsx:100-104 | distinct upper-case codes give distinct flags |

## Left out

- The time, date, time24 and dateISO fields of `formatTime` are not modelled. They are `Intl` locale formatting, and so is the fallback's `toLocale*String` text.
- Seconds are not modelled. Instants and wall clocks are whole minutes, so zone offsets that are not whole minutes (historical local mean time) are not represented.
- TimeUtils.FormatTime: `offsetMs` subtracts two wall-clock texts, each parsed back with `new Date(...)` in the host's own zone. When the host's UTC offset differs between those two wall-clock readings, the source's offset is off by that difference. This happens for the hours between the two readings around a host daylight-saving change, not only inside the gap. For example, with the host in America/New_York at 2024-03-10T06:30Z, America/Los_Angeles gives "-7:00" in the source. The model subtracts the zone database's wall clocks directly and gives "-8:00". That is the source's result on a host whose UTC offset does not change.
- TimeUtils.TimeDifference: `diffMs` is computed the same way and is shifted the same way. In the example above the source says "7h behind" where the model says "8h behind".
- TimeUtils.DayLabel: `getDate` reads one parsed wall clock at a time and reads it back in the host's zone, so the host's offset cancels out. Only a wall clock inside the host's daylight-saving gap is moved by the parse, and its day number changes only where that gap spans midnight. The model does not shift it.
- TimeUtils.LocalHour: some engines print midnight as "24" with `hour12: false`. The model uses 0..23. Both readings give "not daytime", so `isDaytime` is unaffected.
- LocationService.SqDistance: distances are exact reals, not IEEE doubles. `Math.pow` overflow and rounding ties between two nearly equidistant entries are not modelled. Comparing squared distances stands in for comparing `Math.sqrt` results.
- LocationService.GetLocationFromCoords: its `catch` branch (the London lookup) is not modelled. Nothing in the scan can throw.
- LocationService.Matches: `toLowerCase` is modelled on ASCII letters only. Other letters, such as the "É" of a query, are compared as they are.
- LocationInput.Upper: `toUpperCase` is modelled on ASCII letters only. In the source "é" becomes "É" and "ß" becomes "SS", so the source does not keep every other character or the length.
- LocationInput.UpperKeepsUtf16Length: holds for the ASCII upper-casing of the model. The source's `toUpperCase` can lengthen a string ("ß" becomes "SS").
- LocationInput.FlagEmoji: `toUpperCase` is modelled on ASCII letters only. Other letters keep their case here, so "é" is shifted as "é", not as "É". Letters whose upper case is longer are not modelled either: the source turns "ß" into "SS" and so into two flag letters, while the model gives one code point. The result is a sequence of code points, not a JavaScript string.
- `getCurrentLocation` (browser geolocation) is not modelled. Its outcome is the `GeoOutcome` parameter of `InitializeUserLocation`.
- `src/services/weatherService.ts` (random or fetched weather) is not modelled. `getWeatherData` never rejects, so its awaited result is an `Option<WeatherData>` parameter. That also makes the `catch` branch of `addLocation` and the inner `catch` of the London fallback unreachable.
- The `Date.now()` id of `addLocation` is the `freshId` parameter. `matchMedia` is the `prefersDark` parameter. `localStorage` is the `savedTheme` field.
- Setting and removing the `dark` class on the document element has no effect on the state, and is not modelled.
- Asynchronous interleaving is not modelled: each handler is one atomic step. `addLocation` tests `locations.length` on its render's value but appends to the latest list. Those are the same list only when no other update comes in between.
- The `loading` flag of the search box is not modelled, and neither is the input focus. `Session.loading` is modelled.
- The `catch` branch of `handleSearch` is not modelled. `searchLocations` only filters a constant table and cannot reject.
- `src/components/TimeConverter.tsx` and `src/components/LocationCard.tsx` are not part of this model. The latter includes its own copy of `getFlagEmoji`.
