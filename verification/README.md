# Synthetic visit statistics of the lyjystart navigation portal, in Dafny

The portal's statistics modal charts thirty days of made-up visit counts for
seven linked services. `generateRandomStatsData` in `src/lib/utils.ts`
produces them. For each `i` from 29 down to 0 it sets a fresh date to
today's day of the month minus `i`, so the records run from 29 days ago to
today. It labels each day `month-day` and classifies it as a weekend, a
"special" (elevated-traffic) weekday or an ordinary weekday. It then draws each
service's count from an integer range that depends on that class.

This project models that generator with its random draws and today's date
turned into parameters:

- `calendar.dfy` (`Calendar`): the proleptic Gregorian calendar in the
  JavaScript `Date` convention (zero-based month, one-based day). It defines
  a day number (days since 1 January 1970) as the reference. `PrevDay`,
  `NextDay`, `StepBack` and `SetDate` (the month roll-over of
  `Date.prototype.setDate`) are proved against that reference. The day of
  the week (`getDay`) is computed from the day number.
- `decimal.dfy` (`Decimal`): decimal printing of naturals, as a template
  literal prints them, and parsing back, with round trips in both
  directions.
- `label.dfy` (`DateLabel`): the `${month + 1}-${day}` label, its parser and
  round trips. The label has no zero padding even though the code comment
  says "MM-DD".
- `stats.dfy` (`Stats`): the `WebsiteStats` record, the day classification,
  the table of draw ranges and the record of one day.
- `generator.dfy` (`Generator`): the thirty-day loop and the properties of
  its output.
- `wrappers.dfy` (`Wrappers`): the `Option` type.

Each `Math.random()` value is an input `u` with `0 <= u < 1`.
`Math.floor(Math.random() * scale) + offset` is `Stats.Draw(u, Range(scale, offset))`.
Today is a `Date(year, month, day)`. Its day of the week is not an input: it
is derived from the date, as `getDay()` derives it from the time value.

No count is clamped: each minimum is the offset of its draw range, which is
at least 50. Every service is drawn independently of the others.

## Model

| member | source | states |
|---|---|---|
| Generator.GenerateRandomStatsData | src/lib/utils.ts:18-81 | The result has exactly 30 records. Record k is the record of the day 29 − k days before today, built from the k-th day's draws. So the series runs oldest first and ends today. |
| Generator.DayOfWindow | src/lib/utils.ts:23-24 | A fresh date set to today's day of the month minus i is exactly the date i days before today, i.e. its day number is i lower. |
| Generator.RecordsAt | src/lib/utils.ts:22-78 | After the loop has pushed n records, record k of them is the record of window day k, built from that day's draws. |
| Generator.WindowConsecutive | src/lib/utils.ts:22-24 | The last window date is today. Date k has day number today − (29 − k). Each date is the calendar day after the one before it. The day of the week advances by 1 mod 7 from one record to the next. |
| Generator.WindowWeekdays | src/lib/utils.ts:30-31 | The day of the week of record k is today's moved back 29 − k mod 7. Whatever its special-day draw, record k is classed as a weekend exactly when that value is 0 or 6. |
| Generator.GeneratedRecords | src/lib/utils.ts:22-77 | In any generator output, every label parses back to its date's one-based month (1..12) and day (a valid day of that month). Every count is at least 50. Every count lies in the range its day's class selects. |
| Generator.WindowLabelsDistinct | src/lib/utils.ts:22-27 | No two of the thirty labels in a window are equal. |
| Calendar.PrevDay | src/lib/utils.ts:22-24 | The day before a valid date is valid and has a day number one lower. This includes the roll-over to the last day of the previous month or year, with leap-year Februaries. |
| Calendar.NextDay | src/lib/utils.ts:22-24 | The day after a valid date is valid and has a day number one higher. |
| Calendar.PrevNextInverse | src/lib/utils.ts:22-24 | PrevDay and NextDay undo each other on valid dates. |
| Calendar.StepBack | src/lib/utils.ts:22-24 | Stepping back n days gives a valid date whose day number is n lower. |
| Calendar.SetDate | src/lib/utils.ts:23-24 | setDate(v) gives a valid date. Its day number is the first of the current month plus v − 1, for any integer v, rolling over backwards or forwards through months and years. |
| Calendar.SetDateStepsBack | src/lib/utils.ts:22-24 | setDate(getDate() − i) on a valid date is exactly the date i days earlier. |
| Calendar.DayNumberInjective | src/lib/utils.ts:23-24 | Two valid dates with the same day number are the same date. |
| Calendar.Weekday | src/lib/utils.ts:30 | getDay() of a date is in 0..6; the numbering itself is pinned by Calendar.WeekdayAnchors. |
| Calendar.WeekdayAnchors | src/lib/utils.ts:30-31 | getDay() numbers Sunday 0 through Saturday 6: 1 January 1970 and 29 February 2024 give 4 (Thursday), 1 January 2000 and 10 October 2026 give 6 (Saturday), so 6 and 0 are the weekend. |
| Calendar.WeekdayStep | src/lib/utils.ts:30 | The next day's getDay() is one more mod 7. The previous day's is one less mod 7. |
| Calendar.StepBackWeekday | src/lib/utils.ts:30 | n days back, getDay() is n less mod 7. |
| Calendar.SameMonthDayFarApart | src/lib/utils.ts:27 | Two different dates with the same month and day are at least 365 days apart. |
| Calendar.RollOverExamples | src/lib/utils.ts:24 | 1 March steps back to 29 February in 2024 and 2000 and to 28 February in 2023 and 1900. 1 January 2025 steps back to 31 December 2024. |
| Calendar.SetDateExample | src/lib/utils.ts:24 | setDate(10 − 29) on 10 January 2025 gives 12 December 2024. |
| Decimal.NatToString | src/lib/utils.ts:27 | A number prints as a non-empty digit string with no leading zero. The string is one digit long exactly when the number is below 10. |
| Decimal.ParsePrinted | src/lib/utils.ts:27 | Parsing a printed natural gives the natural back. |
| Decimal.PrintParsed | src/lib/utils.ts:27 | Printing the value of a canonical digit string gives the string back. |
| DateLabel.Label | src/lib/utils.ts:27 | The `${getMonth() + 1}-${getDate()}` label of a date. Its contract is stated by DateLabel.LabelRoundTrip and DateLabel.FormattedParsed: it parses back to (month + 1, day), and only strings of exactly this form parse. |
| DateLabel.LabelRoundTrip | src/lib/utils.ts:26-27 | The label of a valid date parses back to (month + 1, day). |
| DateLabel.ParseFormatted | src/lib/utils.ts:27 | Every `m-d` label built from two naturals parses back to them. |
| DateLabel.FormattedParsed | src/lib/utils.ts:27 | Every string that parses as a label is exactly the label of what it parses to. |
| DateLabel.LabelNamesValidDay | src/lib/utils.ts:27 | A date's label names a month in 1..12 and a day that exists in that month. |
| DateLabel.LabelIdentifiesMonthDay | src/lib/utils.ts:27 | Two valid dates have the same label exactly when they share month and day. |
| DateLabel.NoZeroPadding | src/lib/utils.ts:26-27 | 7 March is labelled "3-7" and 25 December "12-25", with no zero padding despite the "MM-DD" comment. |
| Stats.Draw | src/lib/utils.ts:42-76 | floor(u · scale) + offset, for u in [0, 1), lies in [offset, offset + scale − 1]. |
| Stats.DrawCoversRange | src/lib/utils.ts:42-76 | Every value in [offset, offset + scale − 1] is produced by some u in [0, 1), so those bounds are tight. |
| Stats.ServiceRange | src/lib/utils.ts:42-63 | The range table: every range has a positive scale, a lower bound of at least 50 and an upper bound of at most 3000. The fruitGame entries come from lines 74-76. |
| Stats.IsSpecialDay | src/lib/utils.ts:34 | A day can be special only when it is not a weekend, and a weekday is special exactly when its draw is below 0.1. |
| Stats.ClassOf | src/lib/utils.ts:39-41 | The branch taken is Weekend exactly when the day is a weekend, Special exactly when it is a special non-weekend day, and Ordinary otherwise. |
| Stats.Classify | src/lib/utils.ts:30-41 | A day is a weekend exactly when getDay() is 0 or 6. It is special exactly when it is not a weekend and its draw is below 0.1. Otherwise it is ordinary. |
| Stats.WeekendNeverSpecial | src/lib/utils.ts:34 | A weekend day is never special, whatever its draw. |
| Stats.CountOf | src/lib/utils.ts:39-76 | The count of a service on a day of a given class lies in that class's inclusive range for the service. |
| Stats.DayRecord | src/lib/utils.ts:27-77 | A day's record carries a label that parses back to its date's month and day. Each of the seven counts lies in the range that the day's class selects for that service. |
| Stats.WeekendCounts | src/lib/utils.ts:41-76 | On weekends: homepage and search are in 1500-3000, grandmaTraining and monopoly in 300-800, toolbox and homeworkSystem in 250-650, and fruitGame (lines 74-76) in 300-700. |
| Stats.SpecialCounts | src/lib/utils.ts:48-76 | On special weekdays: homepage and search are in 1000-2000, grandmaTraining and monopoly in 200-500, toolbox and homeworkSystem in 150-450, and fruitGame (lines 74-76) in 300-700. |
| Stats.OrdinaryCounts | src/lib/utils.ts:56-76 | On ordinary weekdays: homepage and search are in 200-2000, grandmaTraining and monopoly in 50-500, toolbox and homeworkSystem in 50-450, and fruitGame (lines 74-76) in 50-350. |
| Stats.ClassesOrdered | src/lib/utils.ts:39-76 | For every service, both the lower and the upper bound are non-decreasing from ordinary to special to weekend. |
| Stats.CountsFloor | src/lib/utils.ts:39-77 | Every count of every day is between 50 and 3000, so no series ever shows a zero day. |

## Left out

- `Math.random()` itself: its distribution and any "10% of weekdays" claim are not modelled. Draws are exact reals in [0, 1) supplied by the caller. Floating-point rounding of `Math.random() * scale` is not modelled.
- The order in which the loop consumes random numbers is not modelled. Each day gets its own record of draws. On weekends the special-day draw is ignored, since the code never makes it there.
- Reading the clock with `new Date()`, time zones and daylight-saving transitions are not modelled. Today is a date parameter.
- The second `new Date()` on line 23 can fall after midnight relative to `today` on line 20. The model assumes both read the same day.
- `cn` (src/lib/utils.ts:83-85) is not modelled: it only wraps the `clsx` and `tailwind-merge` libraries, which are not part of this model.
- src/components/StatisticsModal.tsx, src/App.tsx, src/pages/Home.tsx, src/components/StarryBackground.tsx, src/components/IntroAnimation.tsx and src/components/Background.tsx are not modelled. They are React, recharts and canvas rendering, timers and animation frames.
