# formatDuration

A model of `formatDuration` from the Playbooks web app. The formatter turns a
duration into short display text:

- It takes a luxon `Duration` built from calendar units, or a legacy moment
  duration.
- It takes a style: `'narrow'`, the default, or `'long'`.
- Anything under one minute shows as fixed text: `< 1m`, or `less than 1 minute`.
- Otherwise the total is split into whole years, days, hours and minutes, and
  leftover seconds are dropped.
- Zero units are left out, and the rest are printed largest first, separated by
  single spaces.
- Narrow style writes each unit as a number with a suffix (`y`, `d`, `h`, `m`).
- Long style writes a number and a word. The word is singular for a count of one
  and plural otherwise.

The formatter's own implementation file (`formatted_duration.tsx`) is not part of
this model. Its behaviour is taken from the table of cases in
`webapp/src/components/formatted_duration.test.tsx`, lines 20-47, and from the rules
those cases follow.

The modules, in dependency order:

- `Durations` covers the two duration carriers: a unit object with named fields, and
  a millisecond count. Each reduces to a canonical total in whole seconds. Weeks
  count as seven days.
- `Decomposition` splits a total into years, days, hours and minutes. The split is
  proved to be the one normal split that leaves less than a minute over. It is
  truncating, depends only on whole minutes, and is monotone.
- `Text` holds decimal numerals, joining words with spaces, and the matching split.
- `Rendering` covers the units, suffixes and singular/plural words. It picks the
  non-zero terms in order and renders them in either style.
- `Reading` parses rendered text back into terms and seconds. It is the partner of
  rendering: reading the text back recovers exactly the terms shown.
- `FormattedDuration` defines `FormatDuration` itself and the theorems about it.
- `FormatDurationTable` proves every row of the test table, in both styles, plus
  the moment-duration case.

One number is not fixed by anything the table shows: the length of a year. The
model uses `DaysPerYear = 365`, a common year with leap days ignored, as an
assumption. The one year case, `{years: 2, days: 6, minutes: 12}`, comes back
unchanged under any year length longer than six days.

## Model

| member | source | states |
|---|---|---|
| Durations.ConstantsAgree | webapp/src/components/formatted_duration.test.tsx:35 | A week is seven days and a year is `DaysPerYear` days. This is the conversion that turns `{weeks: 6}` into 42 days. The 365-day year is an assumption of the model. |
| Durations.UnitSeconds | webapp/src/components/formatted_duration.test.tsx:39 | The total of a unit object is at least its seconds, at least its minutes in seconds and at least its weeks in seconds. How every field counts is stated by `Durations.WeeksAreSevenDays` and `FormattedDuration.NormalUnitsFormatAsFields`. |
| Durations.UnitMillis | webapp/src/components/formatted_duration.test.tsx:45 | The millisecond length of a unit object is a whole number of seconds, and those seconds are exactly the unit object's total. |
| Durations.CarriersAgree | webapp/src/components/formatted_duration.test.tsx:44-47 | A moment duration of the same length as a unit object has the same total. |
| Durations.WeeksAreSevenDays | webapp/src/components/formatted_duration.test.tsx:35-36 | One more week adds exactly as much as seven more days. A week count folds into days: w weeks and d days total the same as 7w + d days. |
| Decomposition.Decompose | webapp/src/components/formatted_duration.test.tsx:23-37 | The split is normal (days under a year, hours under 24, minutes under 60). It recombines to at most the total and to less than a minute below it, so leftover seconds are dropped. |
| Decomposition.DivModUnique | webapp/src/components/formatted_duration.test.tsx:23-37 | Euclidean division has exactly one quotient and remainder. This is the arithmetic fact behind the uniqueness of the split. |
| Decomposition.DecomposeUnique | webapp/src/components/formatted_duration.test.tsx:23-37 | Any normal split that leaves less than a minute over is the split `Decompose` returns. This is the reference definition the cases are proved against. |
| Decomposition.DecomposeRoundTrip | webapp/src/components/formatted_duration.test.tsx:33-37 | Splitting the seconds of a normal split gives that split back. For example, 99 days 10 hours 45 minutes stays as days and is not regrouped. |
| Decomposition.RecombineTruncates | webapp/src/components/formatted_duration.test.tsx:24-32 | The split recombines to the total rounded down to whole minutes: seconds are truncated, never rounded up. |
| Decomposition.DecomposeWholeMinutes | webapp/src/components/formatted_duration.test.tsx:23-24 | Two totals with the same whole minutes split the same way. `{minutes: 1}` and `{minutes: 1, seconds: 30}` agree. |
| Decomposition.DaysBelowAYear | webapp/src/components/formatted_duration.test.tsx:33-36 | Below one year the years count is zero and the days count is the whole days of the total. No month unit exists. |
| Decomposition.SomeUnitFromAMinute | webapp/src/components/formatted_duration.test.tsx:23 | From one minute on, at least one unit of the split is non-zero. |
| Decomposition.DecomposeMonotone | webapp/src/components/formatted_duration.test.tsx:23-37 | A total has more whole minutes than another exactly when its split is larger, compared unit by unit from the largest. |
| Text.DigitChar | webapp/src/components/formatted_duration.test.tsx:23-37 | A digit below ten becomes the character that denotes it. |
| Text.NatToString | webapp/src/components/formatted_duration.test.tsx:23-37 | A count prints as a non-empty string of decimal digits. It is a single digit exactly when the count is below ten, and from ten on it has no leading zero. |
| Text.NatToStringRoundTrip | webapp/src/components/formatted_duration.test.tsx:23-37 | Reading a printed count back gives the count. |
| Text.FirstSpace | webapp/src/components/formatted_duration.test.tsx:27 | The first space of a string follows a prefix that holds no space. |
| Text.Split | webapp/src/components/formatted_duration.test.tsx:27 | Splitting on spaces gives at least one piece. |
| Text.FirstSpaceAfterWord | webapp/src/components/formatted_duration.test.tsx:27 | The first space after a word that holds no space is the one right after it. |
| Text.SplitJoin | webapp/src/components/formatted_duration.test.tsx:27-37 | Splitting on spaces undoes joining with single spaces, when no word holds a space. |
| Text.JoinAppend | webapp/src/components/formatted_duration.test.tsx:31-37 | Joining two non-empty lists one after the other gives the join of the first, a single space, and the join of the second. |
| Text.JoinStartsWith | webapp/src/components/formatted_duration.test.tsx:31-37 | A join begins with the first character of its first word. |
| Rendering.UnitIsShowable | webapp/src/components/formatted_duration.test.tsx:31-37 | Every output unit has its place in the order years, days, hours, minutes. |
| Rendering.UnitLength | webapp/src/components/formatted_duration.test.tsx:23-37 | Every output unit is at least one minute long; the smallest shown unit is the minute. |
| Rendering.TermsOverValues | webapp/src/components/formatted_duration.test.tsx:26-30 | Filtering a unit list keeps only units of the list, each with its non-zero value. |
| Rendering.TermsOverOrdered | webapp/src/components/formatted_duration.test.tsx:31-37 | Filtering keeps the order of the unit list. |
| Rendering.TermsOverShows | webapp/src/components/formatted_duration.test.tsx:26-30 | A unit of the list is kept exactly when its value is not zero. |
| Rendering.TermsShowNonZeroLargestFirst | webapp/src/components/formatted_duration.test.tsx:26-37 | The shown terms are exactly the non-zero units, each with its value, largest unit first. A zero unit is dropped even between non-zero ones, as in `1d 5m`. |
| Rendering.TermWordsMakeLabel | webapp/src/components/formatted_duration.test.tsx:23-37 | A term's label is its words joined by a space. No word holds a space, and the first word starts with a digit. |
| Rendering.RenderTermsWords | webapp/src/components/formatted_duration.test.tsx:27-37 | The rendered text is the terms' words separated by single spaces. No word holds a space, and the text of a non-empty term list begins with a digit. |
| Rendering.RenderJoinsLabels | webapp/src/components/formatted_duration.test.tsx:27-37 | The rendered text is the labels of the terms, in order, joined by single spaces. |
| Rendering.LongWordAgrees | webapp/src/components/formatted_duration.test.tsx:23-33 | In long style the word is the singular exactly when the count is 1, and the plural exactly when it is not. |
| Rendering.RenderNotSentinel | webapp/src/components/formatted_duration.test.tsx:21-23 | A split with a non-zero unit renders as non-empty text starting with a digit, so it never reads as the under-a-minute text. |
| Reading.UnitOfSuffix | webapp/src/components/formatted_duration.test.tsx:23-37 | A suffix is read back only as the unit it is the suffix of. |
| Reading.UnitOfWord | webapp/src/components/formatted_duration.test.tsx:23-37 | A long-style word is read back only as the unit whose word it is, for that count. |
| Reading.LongWordsDistinct | webapp/src/components/formatted_duration.test.tsx:23-37 | Every unit's long word, singular or plural, reads back as that unit. |
| Reading.ReadTermWords | webapp/src/components/formatted_duration.test.tsx:23-37 | The words of one term, in either style, read back as that term. |
| Reading.ReadRenderWords | webapp/src/components/formatted_duration.test.tsx:27-37 | The words of a term list, in either style, read back as that list. |
| Reading.ReadRender | webapp/src/components/formatted_duration.test.tsx:23-37 | The rendered text of a non-zero split reads back as exactly its shown terms. Rendering is injective on terms. |
| Reading.TermsOverSeconds | webapp/src/components/formatted_duration.test.tsx:35-36 | The seconds of the filtered terms equal the seconds of every unit in the list, because dropped units are zero. |
| Reading.TermsAddUp | webapp/src/components/formatted_duration.test.tsx:35-36 | The shown terms add up to the seconds of the split. |
| FormattedDuration.SentinelExactlyUnderAMinute | webapp/src/components/formatted_duration.test.tsx:21-22 | The fixed text (`< 1m` or `less than 1 minute`) appears exactly when the total is under one minute. From one minute on, the text starts with a digit. |
| FormattedDuration.FormatSpellsTerms | webapp/src/components/formatted_duration.test.tsx:23-37 | From one minute on, the text spells non-empty terms. Each is non-zero and below the next larger unit, the units come largest first, and the terms add up to the total with seconds dropped. |
| FormattedDuration.FormatReadsBack | webapp/src/components/formatted_duration.test.tsx:20-47 | Reading the formatted text back gives the total rounded down to whole minutes, in both styles. The under-a-minute text reads as zero. |
| FormattedDuration.FormatSameExactlyForSameMinutes | webapp/src/components/formatted_duration.test.tsx:23-32 | Two durations format alike exactly when their totals have the same whole minutes. |
| FormattedDuration.CarriersFormatAlike | webapp/src/components/formatted_duration.test.tsx:44-47 | A moment duration formats as the unit object of the same length does. |
| FormattedDuration.WeeksFoldIntoDays | webapp/src/components/formatted_duration.test.tsx:35-36 | Weeks format as seven days each: the output has no week unit. |
| FormattedDuration.NormalUnitsFormatAsFields | webapp/src/components/formatted_duration.test.tsx:23-37 | From one minute on, a unit object with no weeks, whose days, hours, minutes and seconds are each below the next larger unit, formats as the rendering of its own years, days, hours and minutes. The seconds are dropped and nothing is regrouped. This is the general form of every table row from line 23 on that has no weeks. |
| FormattedDuration.BelowAYearNoYears | webapp/src/components/formatted_duration.test.tsx:33-36 | Between one minute and one year the text has no year term. |
| FormatDurationTable.FormatsAsSplit | webapp/src/components/formatted_duration.test.tsx:20-42 | From one minute on, the text is the rendering of the one normal split of the total. |
| FormatDurationTable.RendersAs | webapp/src/components/formatted_duration.test.tsx:20-42 | A split renders as the given labels of its terms joined by single spaces. |
| FormatDurationTable.ZeroSeconds | webapp/src/components/formatted_duration.test.tsx:21 | `{seconds: 0}` formats as `< 1m` by default (narrow) and `less than 1 minute` in long style. |
| FormatDurationTable.FiftyNineSeconds | webapp/src/components/formatted_duration.test.tsx:22 | `{seconds: 59}` formats as `< 1m` by default (narrow) and `less than 1 minute` in long style. |
| FormatDurationTable.OneMinute | webapp/src/components/formatted_duration.test.tsx:23 | `{minutes: 1}` formats as `1m` by default (narrow) and `1 minute` in long style. |
| FormatDurationTable.OneMinuteThirtySeconds | webapp/src/components/formatted_duration.test.tsx:24 | `{minutes: 1, seconds: 30}` formats as `1m` by default (narrow) and `1 minute` in long style. |
| FormatDurationTable.FiftyNineMinutes | webapp/src/components/formatted_duration.test.tsx:25 | `{minutes: 59}` formats as `59m` by default (narrow) and `59 minutes` in long style. |
| FormatDurationTable.OneHour | webapp/src/components/formatted_duration.test.tsx:26 | `{hours: 1}` formats as `1h` by default (narrow) and `1 hour` in long style. |
| FormatDurationTable.OneHourThirtyMinutes | webapp/src/components/formatted_duration.test.tsx:27 | `{hours: 1, minutes: 30}` formats as `1h 30m` by default (narrow) and `1 hour 30 minutes` in long style. |
| FormatDurationTable.TwentyThreeHours | webapp/src/components/formatted_duration.test.tsx:28 | `{hours: 23}` formats as `23h` by default (narrow) and `23 hours` in long style. |
| FormatDurationTable.OneDay | webapp/src/components/formatted_duration.test.tsx:29 | `{days: 1}` formats as `1d` by default (narrow) and `1 day` in long style. |
| FormatDurationTable.OneDayFiveMinutes | webapp/src/components/formatted_duration.test.tsx:30 | `{days: 1, minutes: 5}` formats as `1d 5m` by default (narrow) and `1 day 5 minutes` in long style. |
| FormatDurationTable.OneDayTwoHoursFiveMinutes | webapp/src/components/formatted_duration.test.tsx:31 | `{days: 1, hours: 2, minutes: 5}` formats as `1d 2h 5m` by default (narrow) and `1 day 2 hours 5 minutes` in long style. |
| FormatDurationTable.OneDayTwoHoursFiveMinutesThirtySeconds | webapp/src/components/formatted_duration.test.tsx:32 | `{days: 1, hours: 2, minutes: 5, seconds: 30}` formats as `1d 2h 5m` by default (narrow) and `1 day 2 hours 5 minutes` in long style. |
| FormatDurationTable.ThirtySixDays | webapp/src/components/formatted_duration.test.tsx:33 | `{days: 36}` formats as `36d` by default (narrow) and `36 days` in long style. |
| FormatDurationTable.NinetyNineDaysTenHoursFortyFiveMinutes | webapp/src/components/formatted_duration.test.tsx:34 | `{days: 99, hours: 10, minutes: 45}` formats as `99d 10h 45m` by default (narrow) and `99 days 10 hours 45 minutes` in long style. |
| FormatDurationTable.SixWeeks | webapp/src/components/formatted_duration.test.tsx:35 | `{weeks: 6}` formats as `42d` by default (narrow) and `42 days` in long style. |
| FormatDurationTable.TwoWeeksSixDaysTwelveMinutes | webapp/src/components/formatted_duration.test.tsx:36 | `{weeks: 2, days: 6, minutes: 12}` formats as `20d 12m` by default (narrow) and `20 days 12 minutes` in long style. |
| FormatDurationTable.TwoYearsSixDaysTwelveMinutes | webapp/src/components/formatted_duration.test.tsx:37 | `{years: 2, days: 6, minutes: 12}` formats as `2y 6d 12m` by default (narrow) and `2 years 6 days 12 minutes` in long style. |
| FormatDurationTable.MomentOneDayTwoHoursFiveMinutes | webapp/src/components/formatted_duration.test.tsx:44-47 | The moment duration `{days: 1, hours: 2, minutes: 5}`, held as milliseconds, formats as `1d 2h 5m` by default. |

## Left out

- The `FormattedDuration` React component (`formatted_duration.test.tsx` lines
  50-102) is not modelled. It reads the current time through a hook, it treats an
  absent or zero `to` as "now", and its output is checked only against snapshots.
- Negative durations are not modelled. The formatter accepts any luxon duration,
  and a luxon duration can have negative fields. But no case has a negative
  duration, so what the formatter does with one is not known. Every duration here
  is a non-negative count.
- The internals of the luxon and moment duration objects are not modelled. That
  includes fractional field values, millisecond fields of the unit object, and the
  month and quarter fields. A unit object here has whole-number years, weeks, days,
  hours, minutes and seconds. A moment duration is a whole number of milliseconds,
  and its sub-second remainder is dropped.
- A moment duration keeps years and months in a field of their own. It turns them
  into days by an average month length, so its years are not DaysPerYear days each.
  The model counts a year as DaysPerYear days for both carriers. The one moment case
  has no years, so no case depends on this.
- Text.NatToString: counts are unbounded naturals, printed as plain decimal
  numerals. Two things are assumed rather than shown. The first is the number range:
  JavaScript numbers are exact only up to 2^53 and print in exponent form from 1e21.
  The second is the plain form: no case has a count of four or more digits, so
  whether large counts are grouped (such as 1,000) is not known.
- Durations.ConstantsAgree: the 365-day year is an assumption of the model, not
  something the formatter is shown to use. A year length that counts leap days
  would change results from one year on.
- `webapp/src/components/post_menu.tsx` is not part of this model. It is UI wiring
  with a single branch that calls an action creator that is not shown.
- `webapp/src/components/backstage/runs_list/checkbox_input.tsx` is not part of this
  model. It holds styling and forwards a checkbox event, with no logic.
