# CV date and duration labels

This is a Dafny model of the two formatting helpers that the CV page (`app.js`) uses to label its education, experience, certificate and project entries:

- `fmtDate(year, month, fmtForNullYear = 'present')` builds a date label. A missing year gives the fallback text. A year without a month gives the year alone. Otherwise the label is a three-letter lower-case month name, one space, and the year (`"mar 2020"`).
- `fmtDuration` builds a duration label. The model covers its arithmetic and its label, given the milliseconds between the two dates. It rounds the elapsed time up to whole tenths of a 360-day year. It splits that count `t` into whole years and a leftover tenth digit, which the label calls "mo". It renders `"<years> <yr|yrs> <mo> <mo|mos>"`, and a unit takes the plural only when its count is greater than 1.

Modules:

- `Wrappers`: the `Option` datatype.
- `Text` (`text.dfy`): the decimal text of a whole number (`IntText`), the way JavaScript's `String(n)` writes it for magnitudes below 10^21. Also its inverse `ParseInt`, and splitting a label on single spaces (`Split`/`Join`). `Text` is the shared rendering of the year and of the duration figures.
- `DateFormat` (`date_format.dfy`): the month table, `MonthName`, `FormatDate`, and a reader `ParseDateLabel` that partners it.
- `DurationFormat` (`duration_format.dfy`): `Ceil`, `TenthsElapsed`, `SplitTenths`, the unit words, `SpanLabel`, `FormatDuration`, and a reader `ParseSpanLabel` that partners it.

Modelling choices:

- Year and month are `int`. The value `0` stands for every value JavaScript treats as falsy: `undefined`, `null` and `0`. `!year` and `!month` become `== 0`, and every other whole number is truthy, negative ones included.
- `return year` returns the number itself. The page interpolates it as its decimal text, so the model returns `IntText(year)`.
- The source's floating-point expressions (`/ 24 / 30 / 3600 / 100 / 12`, `Math.ceil`, `Math.floor`, `(duration - yrDuration) * 10`) are written on Dafny's `real`. Dafny's `real` is exact rational arithmetic. Lemmas then show these expressions equal integer ceiling division by 3,110,400,000 and `div`/`mod` 10.
- Negative elapsed times, where the end comes before the start, are modelled and not excluded. Exact arithmetic gives them a well-defined label.

Behaviour of the code worth spelling out:

- **Months outside 1..12.** A truthy month outside 1..12 indexes past `months`, so `months[month - 1]` is `undefined`. The template literal renders that as `"undefined"`. A negative month is truthy and takes this path too. `OutOfRangeMonthLabel` states the result.
- **A 1 January 2018 to 28 January 2020 span.** The code dates the start on the 1st and the end on the 28th, so this span is 757 days and `t = ceil(757 / 36) = 22`. The exact model gives `"2 yrs 2 mos"` (`FormatDurationExamples`). The program computes in doubles and shows `"2 yrs 3 mos"`: `2.2 - 2` is slightly above 0.2, and the ceiling of ten times it is 3. A span of exactly 720 days gives `"2 yrs 0 mo"` in both.
- **What "mo" counts.** The "mo" figure is tenths of a 360-day year (36 days each), not calendar months.

## Model

| member | source | states |
|---|---|---|
| `DateFormat.FormatDate` | app.js:23-30 | no contract of its own: `fmtDate` itself. Its properties are carried by `AbsentYearGivesFallback`, `AbsentMonthGivesYear`, `MonthAndYearLabel`, `OutOfRangeMonthLabel`, `FallbackOnlyForAbsentYear`, `ParseDateLabelOfFormat`, `FormatOfParseDateLabel` and `FormatDateInjective` |
| `DateFormat.MonthName` | app.js:24-29 | no contract of its own: the text of `months[month - 1]`. Its properties are carried by `MonthAndYearLabel` (the table entry for 1..12) and `OutOfRangeMonthLabel` ("undefined" otherwise) |
| `DateFormat.AbsentYearGivesFallback` | app.js:23-26 | a falsy year gives exactly the fallback text, for any month; when no fallback is passed, that text is "present" |
| `DateFormat.AbsentMonthGivesYear` | app.js:27-28 | a present year with a falsy month gives the year's decimal text alone, which reads back as that year |
| `DateFormat.MonthAndYearLabel` | app.js:24-29 | a present year with month 1..12 gives `months[month-1] + " " + year`: three characters of month name, a space at index 3, the year from index 4, and exactly two space-separated tokens |
| `DateFormat.OutOfRangeMonthLabel` | app.js:29 | a truthy month outside 1..12 gives `"undefined " + year` |
| `DateFormat.FallbackOnlyForAbsentYear` | app.js:25-29 | two fallbacks give the same label if and only if the year is present or the two fallbacks are equal |
| `DateFormat.MonthTable` | app.js:24 | the table has 12 entries, each three lower-case letters with no space, and no two are equal |
| `DateFormat.MonthNumberOfName` | app.js:24 | each table entry `months[m-1]` names month `m` |
| `DateFormat.ParseDateLabelOfFormat` | app.js:25-29 | for a present year and a month in 0..12, the label reads back as `(year, month)` whatever the fallback |
| `DateFormat.NameOfMonthNumber` | app.js:24 | every name the reader maps to a month is the table entry for that month |
| `DateFormat.FormatOfParseDateLabel` | app.js:25-29 | every string the date reader accepts is exactly the label of the pair it returns, whatever the fallback |
| `DateFormat.FormatDateInjective` | app.js:25-29 | distinct (present year, month in 0..12) pairs never share a label |
| `DateFormat.DistinctMonthsDistinctLabels` | app.js:24-29 | for a fixed present year, distinct months in 1..12 give distinct labels |
| `DateFormat.FormatDateExamples` | app.js:23-29 | (2020, 3) gives "mar 2020", (2020, absent) gives "2020", an absent year gives "present" by default and "N/A" when that is passed |
| `Text.IntText` | app.js:28-29 | the decimal text of a number is non-empty and holds no space |
| `Text.ParseIntOfText` | app.js:28-29 | the decimal text of every whole number reads back as that number |
| `Text.TextOfParseInt` | app.js:28-29 | every string the reader accepts is the decimal text of the number it returns, so the text of a number is unique |
| `DurationFormat.Ceil` | app.js:35 | `Math.ceil(x)` is the least whole number `r` with `x <= r` |
| `DurationFormat.TenthsElapsed` | app.js:35 | the chained division and ceiling give the least `t` with `elapsed <= t * 3,110,400,000` |
| `DurationFormat.TenthsElapsedIsCeilDiv` | app.js:35 | that `t` is integer ceiling division of the elapsed milliseconds by 3,110,400,000 |
| `DurationFormat.SplitTenths` | app.js:35-37 | the floor of `t/10` and the ceiling of the scaled remainder give a "mo" figure in 0..9, and `10 * years + mo == t` |
| `DurationFormat.SplitTenthsIsDivMod` | app.js:36-37 | the years are `t div 10` and the "mo" figure is `t mod 10` |
| `DurationFormat.YearUnit` | app.js:38 | no contract of its own: `yrDuration > 1 ? 'yrs' : 'yr'`. Its property is carried by `PluralOnlyAboveOne` |
| `DurationFormat.MonthUnit` | app.js:38 | no contract of its own: `moDuration > 1 ? 'mos' : 'mo'`. Its property is carried by `PluralOnlyAboveOne` |
| `DurationFormat.SpanLabel` | app.js:38 | no contract of its own: the template string. Its properties are carried by `SpanLabelTokens`, `ParseSpanLabelOfLabel` and `LabelOfParseSpanLabel` |
| `DurationFormat.FormatDuration` | app.js:35-38 | no contract of its own: `fmtDuration` from the elapsed milliseconds on. Its properties are carried by `FormatDurationFigures` and `FormatDurationExamples` |
| `DurationFormat.PluralOnlyAboveOne` | app.js:38 | "yrs"/"mos" appear if and only if the count is greater than 1; counts 0 and 1 (and below) give "yr"/"mo" |
| `DurationFormat.SpanLabelTokens` | app.js:38 | the label is exactly four single-space-separated tokens: years, year unit, "mo" figure, month unit |
| `DurationFormat.ParseSpanLabelOfLabel` | app.js:38 | every label reads back as the two figures it was made from |
| `DurationFormat.LabelOfParseSpanLabel` | app.js:38 | every string the reader accepts is exactly the label of the figures it returns |
| `DurationFormat.FormatDurationFigures` | app.js:35-38 | the label of an elapsed time shows `t div 10` years and `t mod 10` "mo", where `t` is the elapsed time rounded up to tenths of a 360-day year |
| `DurationFormat.FormatDurationExamples` | app.js:35-38 | 720 days gives "2 yrs 0 mo", 757 days "2 yrs 2 mos", 209 days "0 yr 6 mos", no time "0 yr 0 mo" |

## Left out

- Loading the document (app.js:11-21) is left out: the `cv` ref, reading `id` from the URL with its default `1`, `fetch` and `res.json()`. These are browser I/O and Vue reactivity.
- The `Date` construction and subtraction in `fmtDuration` (app.js:33-34) are left out. This includes the day-of-month choices (1st and 28th) and the "now" end date used when both end fields are falsy. They depend on the calendar, the local time zone, daylight saving time and the clock, so the model takes the elapsed milliseconds as its input.
- IEEE-754 floating point is left out. The model computes app.js:35 and app.js:37 exactly. The exact model is an abstraction of the source, not a bit-for-bit match.
- SplitTenths, SplitTenthsIsDivMod, FormatDurationFigures and FormatDurationExamples: "mo in 0..9" and "mo == t mod 10" hold of the exact abstraction only. In doubles, `Math.ceil((duration - yrDuration) * 10)` is one more than `t mod 10` for 75 values of `t` in 10..199, starting at `t` = 11, 13, 16, 21, 22. For `t` = 22 the program shows "2 yrs 3 mos" where the model gives "2 yrs 2 mos". It reaches 10 at `t` = 49, 59, 69, …, where the program shows "4 yrs 10 mos".
- IntText: magnitudes of 10^21 and above, which JavaScript renders in exponent form (`String(1e21)` is "1e+21"), are written here in full digits. JavaScript numbers are doubles, and the model's integers are unbounded.
- Non-integer years and months are left out: strings, fractions and `NaN` from the JSON document. The model takes whole numbers only.
- The template (app.js:47-135) is left out: section gating with `v-if`, iteration with `v-for`, `tech.join(', ')`, and the `CvHeader`/`CvCat` components. It is markup, and the two components are not part of this model.
