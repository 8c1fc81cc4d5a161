# Smart Care insight engine — a Dafny model

This project models the "Smart Care" feature of the neonest baby-care
application. The feature is a heuristic insight engine built from three
stateless analyzers and an aggregator:

- The feeding analyzer predicts the next feeding from the mean gap between
  logged feedings. Its confidence falls as the gaps spread out.
- The nap analyzer finds the mean start time of nap-tagged sleep entries. It
  shows that time as zero-padded "HH:MM" and predicts the next time the local
  clock reads it.
- The growth analyzer sorts measurements by date. It classifies the
  first-to-last weight and height change as increasing, decreasing or stable.
- The aggregator bundles the three results with the subject id and the
  generation time.

Around the engine, the project also models:

- the feedback endpoint, which checks the request and builds the record it
  stores;
- the dashboard's presentation rules: the "time until" countdown text, the
  confidence colour and the confidence percentage;
- the body of the feedback the dashboard posts;
- the age-based feeding interval of the seeding script.

Modules, one file each:

| module | file | what it holds |
|---|---|---|
| `Wrappers` | wrappers.dfy | `Option` and `Result` |
| `Numeric` | numeric.dfy | time constants, JavaScript `NaN`, `Math.round`, rounding to tenths and hundredths, the truncation a `Date` applies, sums and means |
| `Text` | text.dfy | decimal rendering, two-digit zero padding, "HH:MM", and the parsers that invert them |
| `Feeding` | feeding.dfy | `analyzeFeedingPatterns` |
| `Sleep` | sleep.dfy | `analyzeSleepPatterns` |
| `Growth` | growth.dfy | `analyzeGrowthTrends`, with a stable sort by time |
| `Insights` | insights.dfy | the `SmartCareAnalyzer` object and `generateInsights` |
| `FeedbackRoute` | feedback.dfy | `POST /api/smartcare/feedback` |
| `Display` | display.dfy | `formatTimeUntil`, `getConfidenceColor`, the percentage badge, the dashboard's feedback body |
| `Schedule` | schedule.dfy | `calculateNextFeedingTime` and the age in days |

Encoding choices:

- Time values are `int` milliseconds and durations in hours are `real`.
- A missing or falsy JavaScript field is an `Option`.
- A nap's start is its local minute of the day, in 0..1439. The local zone is
  a fixed offset `tzOffset` from UTC.
- Dafny has no square root, so the feeding analyzer receives the standard
  deviation of the gaps as a parameter `sd >= 0`. The predicate
  `Feeding.IsStdDev` ties `sd` to the population variance of the gaps
  wherever a lemma needs the link. A zero variance has the square root 0, so
  perfectly regular feedings are analysed with `sd` 0.
- The current time is a parameter wherever the source reads the clock.
- When every feeding shares one timestamp, the mean gap is 0. The source then
  computes `0 / 0`, so the feeding confidence is modelled as a number that
  may be `NaN`.

Behaviours of the code worth noting:

- The nap analyzer needs two sleep entries of any kind and at least one nap
  (lib/smartcare-analyzer.js:49, 66).
- The feedback route does not check the insight type against
  feeding/sleep/growth. Only the storage schema's enum does that
  (app/api/smartcare/feedback/route.js:13, lib/database.js:24-28).
- With two or more growth entries, the growth result carries no confidence
  and no message of its own (lib/smartcare-analyzer.js:112-144).
- A feeding history listed newest first has a negative mean gap.
  `1 - sd/avg` is then at least 1, so the confidence is the ceiling 0.95
  whatever the spread (`Feeding.NewestFirstReachesCeiling`).

## Model

| member | source | states |
|---|---|---|
| Feeding.AnalyzeFeedingPatterns | lib/smartcare-analyzer.js:8-46 | a missing list or fewer than three feedings gives the placeholder: confidence 0.3, no prediction, no mean interval; otherwise the mean interval is (last − first)/(n − 1) hours rounded to a tenth, the message carries that same figure, the next feeding is last + (last − first)/(n − 1) ms truncated, and the confidence is the clamped spread ratio |
| Feeding.EntryTime | lib/smartcare-analyzer.js:21-22 | a feeding's time is its `timestamp` whenever it has one, and its `created_at` only otherwise |
| Feeding.Times | lib/smartcare-analyzer.js:20-22 | there is one time per feeding, in input order, each that feeding's own time |
| Feeding.Gaps | lib/smartcare-analyzer.js:19-25 | a history of n times has exactly n − 1 gaps |
| Feeding.SumOfGapsTelescopes | lib/smartcare-analyzer.js:18-28 | the gaps in input order sum to last minus first, in hours |
| Feeding.MeanGap | lib/smartcare-analyzer.js:27-28 | the mean gap is the whole span divided by the number of gaps |
| Feeding.NextFeedingFollowsMeanGap | lib/smartcare-analyzer.js:33-35 | the predicted feeding is within one millisecond of the last feeding plus the mean gap |
| Feeding.Confidence | lib/smartcare-analyzer.js:37-38 | with a non-zero mean the confidence lies in [0.3, 0.95]; with a zero mean it is NaN exactly when the spread is zero and 0.3 otherwise; zero spread and non-zero mean give 0.95 |
| Feeding.ConfidenceInBand | lib/smartcare-analyzer.js:38 | for a positive mean gap and a spread between 5% and 70% of it, neither clamp applies and the confidence is exactly 1 − sd/avg |
| Feeding.RegularFeedingsReachCeiling | lib/smartcare-analyzer.js:27-38 | equal positive gaps have variance 0, so standard deviation 0, and then give confidence exactly 0.95 |
| Feeding.NoDeviationFromConstant | lib/smartcare-analyzer.js:29-31 | the squared deviations of a constant series from that constant sum to 0 |
| Feeding.VarianceOfConstant | lib/smartcare-analyzer.js:29-31 | the population variance of a constant series is 0 |
| Feeding.NewestFirstReachesCeiling | lib/smartcare-analyzer.js:18-38 | a history whose last time precedes its first gets confidence 0.95 for any spread |
| Feeding.WideSpreadHitsFloor | lib/smartcare-analyzer.js:38 | a spread of at least 70% of a positive mean gap gives the floor 0.3 |
| Feeding.ConfidenceFallsWithSpread | lib/smartcare-analyzer.js:37-38 | for a positive mean gap, a wider spread never gives a higher confidence |
| Numeric.Round | lib/smartcare-analyzer.js:43 | `Math.round` lands within half a unit of its argument, halves going up |
| Numeric.RoundToTenth | lib/smartcare-analyzer.js:43-44 | the result is a whole number of tenths within 0.05 of the value, halves going up |
| Numeric.RoundToTenthUnique | lib/smartcare-analyzer.js:43-44 | any whole number of tenths in that window is the rounded value |
| Numeric.RoundToHundredth | lib/smartcare-analyzer.js:123-125 | the result is a whole number of hundredths within 0.005 of the value, halves going up |
| Numeric.RoundToHundredthUnique | lib/smartcare-analyzer.js:123-125 | any whole number of hundredths in that window is the rounded value |
| Numeric.Trunc | lib/smartcare-analyzer.js:35 | the time value a `Date` keeps is the fractional one truncated toward zero |
| Numeric.MeanBounds | lib/smartcare-analyzer.js:76 | the mean of values in [lo, hi) stays in [lo, hi) |
| Numeric.MeanWithin | lib/smartcare-analyzer.js:76 | the mean of values in [lo, hi] stays in [lo, hi] |
| Numeric.MeanOfConstant | lib/smartcare-analyzer.js:28 | the mean of a constant series is that constant |
| Sleep.HourOfDay | lib/smartcare-analyzer.js:62-63 | `getHours() + getMinutes()/60` is the minute of the day over 60, in [0, 24) |
| Sleep.NapIndices | lib/smartcare-analyzer.js:59-60 | the listed positions are nap-tagged entries, in strictly increasing order |
| Sleep.NapIndicesComplete | lib/smartcare-analyzer.js:59-60 | every entry tagged as a nap in either field is listed |
| Sleep.NapHours | lib/smartcare-analyzer.js:59-64 | the hours are each in [0, 24), no more than the entries, and there are none exactly when no entry is tagged as a nap in either field |
| Sleep.NapHoursFollowNapIndices | lib/smartcare-analyzer.js:59-64 | there is one hour per nap, and the j-th hour is the start of the j-th nap in input order, as `getHours() + getMinutes()/60` |
| Sleep.MeanNapMinuteWithinNaps | lib/smartcare-analyzer.js:76-78 | the mean nap minute lies between the earliest and the latest nap start |
| Sleep.NapsAtOneMinute | lib/smartcare-analyzer.js:76-78 | naps all started at one minute average to that minute |
| Sleep.MeanNapMinute | lib/smartcare-analyzer.js:76 | the mean nap start, in whole minutes, is a minute of the day |
| Sleep.HourMinuteSplit | lib/smartcare-analyzer.js:77-78 | `floor(h)` and `floor((h % 1) * 60)` are the hour and the minute (below 60) of the whole minutes of h hours |
| Sleep.NapInsight | lib/smartcare-analyzer.js:77-94 | a mean start of avg hours gives confidence 0.8, the "HH:MM" of its whole minutes, the message "Optimal nap window: " followed by that text, and the next moment the local clock shows those minutes |
| Sleep.NextNap | lib/smartcare-analyzer.js:80-87 | the next nap is strictly after now, at most one day later, and falls at the given local time of day |
| Sleep.NextNapIsEarliest | lib/smartcare-analyzer.js:81-87 | no moment after now and before the predicted nap shows the nap time on the local clock |
| Sleep.AnalyzeSleepPatterns | lib/smartcare-analyzer.js:48-95 | fewer than two entries gives "Need more sleep data for predictions"; no nap gives "No nap data available"; the two placeholders differ only in the message; with a nap, confidence is 0.8, the time is the mean nap minute as "HH:MM", and the message is "Optimal nap window: " followed by that same text |
| Sleep.NapPredictionInWindow | lib/smartcare-analyzer.js:76-94 | the "HH:MM" text has five characters and reads back as an hour below 24 and a minute below 60, and the prediction falls at exactly that local time, within one day after now |
| Sleep.TwoNapsAverageToHalfPast | lib/smartcare-analyzer.js:59-93 | naps at 13:00 and 14:00 around a night sleep give "Optimal nap window: 13:30" |
| Text.NatToString | lib/smartcare-analyzer.js:92 | `toString()` of a whole number is a non-empty digit string with no leading zero unless the number is 0 |
| Text.ParseNatToString | lib/smartcare-analyzer.js:92 | reading the decimal text back gives the number |
| Text.NatToStringInjective | lib/smartcare-analyzer.js:92 | distinct numbers have distinct texts |
| Text.Pad2 | lib/smartcare-analyzer.js:92 | `padStart(2, '0')` of a number below 100 is two digits |
| Text.ParsePad2 | lib/smartcare-analyzer.js:92 | the padded text reads back as the number |
| Text.ClockText | lib/smartcare-analyzer.js:92-93 | "HH:MM" is five characters, digits around a colon |
| Text.ClockTextRoundTrip | lib/smartcare-analyzer.js:92-93 | "HH:MM" reads back as the hour and minute it was built from |
| Growth.SortByTime | lib/smartcare-analyzer.js:107-110 | the sort by `date` or `timestamp` is ascending and a permutation of its input |
| Growth.SortIsStable | lib/smartcare-analyzer.js:107-110 | entries with equal keys keep their input order |
| Growth.Sampled | lib/smartcare-analyzer.js:115 | the kept entries are no more than the input and each has a present, non-zero value |
| Growth.SampledMembers | lib/smartcare-analyzer.js:115 | an entry is kept exactly when it is in the input and its value is present and non-zero |
| Growth.SampledIndices | lib/smartcare-analyzer.js:115 | the listed positions hold entries with a present, non-zero value, in strictly increasing order |
| Growth.SampledIndicesComplete | lib/smartcare-analyzer.js:115 | every position with a present, non-zero value is listed |
| Growth.SampledSnoc | lib/smartcare-analyzer.js:115 | filtering a series is filtering all but its last entry and then keeping that entry when its value is truthy |
| Growth.SampledFollowsIndices | lib/smartcare-analyzer.js:115-119 | the filter keeps one copy per sampled position, in input order: the j-th kept entry is the entry at the j-th sampled position, so the count that divides the rate and the first and last samples are fixed |
| Growth.SampledKeepsOrder | lib/smartcare-analyzer.js:108-115 | filtering a sorted series keeps it sorted |
| Growth.SortKeepsSampleCount | lib/smartcare-analyzer.js:108-130 | sorting neither adds nor drops samples of either measure |
| Growth.Classify | lib/smartcare-analyzer.js:122 | increasing exactly above the threshold, decreasing exactly below its negation, stable exactly in between, inclusive |
| Growth.ClassifyMonotone | lib/smartcare-analyzer.js:137 | a larger change never gets a lower direction |
| Growth.ClassifySymmetric | lib/smartcare-analyzer.js:122-137 | negating the change swaps increasing and decreasing and keeps stable |
| Growth.TrendOf | lib/smartcare-analyzer.js:116-126 | a trend exists exactly for two or more samples; the change is last minus first; the rate is the change over the sample count, rounded to hundredths; the confidence is 0.85; the total change is the change rounded to hundredths |
| Growth.AnalyzeGrowthTrends | lib/smartcare-analyzer.js:97-145 | fewer than two entries gives the placeholder (confidence 0.3, both trends absent); otherwise there is no confidence or message, and each trend exists exactly when at least two entries have a non-zero value of that measure, computed over the time-ordered samples |
| Growth.ChangeSpansEarliestToLatest | lib/smartcare-analyzer.js:107-117 | every sampled entry lies in time between the first and last sample the change is taken from |
| Growth.WeightThresholdExamples | lib/smartcare-analyzer.js:116-141 | a weight change of 0.05 is stable, 0.2 is increasing, and a height change of 0.4 is stable |
| Insights.NewAnalyzer | lib/smartcare-analyzer.js:3-6 | the analyzer keeps the subject id it is built for, with threshold 0.7 |
| Insights.ThresholdIsNeverRead | lib/smartcare-analyzer.js:3-157 | two analyzers for one subject give the same snapshot whatever their thresholds |
| Insights.GenerateInsights | lib/smartcare-analyzer.js:147-157 | the snapshot carries the analyzer's subject id and the generation time; a missing series gives that analyzer's placeholder, and a present one gives its result |
| Insights.SnapshotConfidences | lib/smartcare-analyzer.js:147-151 | every confidence in a snapshot is one the analyzers can produce: feeding in [0.3, 0.95] or NaN, sleep 0.3 or 0.8, growth 0.3 or absent, 0.85 on each trend |
| Insights.EmptyDataGivesPlaceholders | lib/smartcare-analyzer.js:149-151 | missing and empty series give the same snapshot, made of the three placeholders |
| FeedbackRoute.Validate | app/api/smartcare/feedback/route.js:10-27 | the request is refused with 400 "Missing required fields" exactly when the subject id or insight type is falsy or `accurate` is not a boolean; an accepted request stores those three fields unchanged, the stamp time, and the user id if truthy, else "anonymous" |
| FeedbackRoute.PostFeedback | app/api/smartcare/feedback/route.js:5-42 | an unreadable body or a failed store gives 500 "Failed to record feedback"; a refused body gives 400; a stored record gives 200 with status "success", "Feedback recorded successfully" and the new record's id |
| FeedbackRoute.AccurateMustBeBoolean | app/api/smartcare/feedback/route.js:13-18 | `accurate` given as "yes", 1, null or not at all is refused, and `false` is accepted |
| FeedbackRoute.UnknownInsightTypeReachesStore | app/api/smartcare/feedback/route.js:13-40 | an insight type outside the schema's enum passes the route's check and reaches the store, whose failure becomes a 500 |
| Display.CountdownTo | app/components/SmartCare.js:63-73 | a falsy timestamp is unknown; a target strictly before now is overdue; otherwise the hours and minutes until the target satisfy H·3600000 + M·60000 ≤ diff < H·3600000 + (M+1)·60000 with M below 60 |
| Display.CountdownIsTheFloorSplit | app/smart-care/page.js:47-48 | any hours-and-minutes pair meeting those bounds is the one shown |
| Display.Render | app/components/SmartCare.js:74 | a remaining time reads as the hours' digits, "h ", the minutes' digits and "m", and both numbers read back from that text |
| Display.RenderWords | app/components/SmartCare.js:64-74 | "Unknown" and "Now" are shown only for a missing and a past target |
| Display.RenderInjective | app/components/SmartCare.js:74 | distinct countdowns are shown as distinct texts |
| Display.FormatTimeUntil | app/smart-care/page.js:39-51 | "Unknown" exactly for a falsy timestamp, "Now" exactly for a target strictly before now, and "0h 0m" for a target equal to now |
| Display.MockFeedingCountdown | app/smart-care/page.js:13 | the demo page's two-hour target reads "2h 0m" in the millisecond it is built and "1h 59m" up to a minute later |
| Display.ConfidenceColor | app/components/SmartCare.js:77-81 | green exactly from 0.8, yellow exactly in [0.6, 0.8), red exactly below 0.6 |
| Display.ConfidenceColorMonotone | app/smart-care/page.js:53-57 | a higher confidence never gets a worse colour |
| Display.ColorClassInjective | app/components/SmartCare.js:78-80 | the three colours have distinct classes |
| Display.ShownConfidence | app/components/SmartCare.js:131 | the `or 0` fallback keeps a finite confidence and reads a missing or NaN one as 0 |
| Display.Percent | app/components/SmartCare.js:132 | the percentage shown is the confidence times 100 rounded to the nearest whole number |
| Display.BadgeFor | app/components/SmartCare.js:131-132 | a missing or NaN confidence shows as red 0% |
| Display.FeedingBadge | app/components/SmartCare.js:131-132 | without insights or with a NaN confidence the feeding card shows red 0%; otherwise the colour of its confidence and that confidence as a percentage to the nearest whole |
| Display.SleepBadge | app/components/SmartCare.js:176-177 | without insights the sleep card shows red 0%; otherwise the colour of its confidence and that confidence as a percentage to the nearest whole |
| Display.GrowthBadge | app/components/SmartCare.js:221-222 | without insights or a weight trend the growth card shows red 0%; otherwise the colour and percentage of the weight trend's confidence |
| Display.NoInsightsShowRedZero | app/components/SmartCare.js:29-33 | after a failed fetch leaves no insights, all three cards show red 0% |
| Display.SnapshotBadges | app/components/SmartCare.js:176-177 | with the analyzers' confidences, feeding shows red 0% or 30% to 95%, sleep red 30% or green 80%, and growth green 85% or red 0% |
| Display.MockConfidenceBadges | app/smart-care/page.js:109-110 | the mock confidences 0.85, 0.78 and 0.92 show as green 85%, yellow 78% and green 92% |
| Display.FeedbackPayload | app/components/SmartCare.js:51-56 | the dashboard's feedback names "current-baby-id", carries `accurate` as a boolean and no user id, and passes the route's check exactly when the type is not empty |
| Display.ComponentFeedbackRecordedAnonymously | app/components/SmartCare.js:46-61 | each feedback button's body passes the route's check and is recorded under "current-baby-id" as anonymous, with a type the schema accepts |
| Schedule.IntervalHours | scripts/initSmartCare.js:7 | three hours exactly below 30 days of age, four hours from 30 days on |
| Schedule.NextFeedingTime | scripts/initSmartCare.js:6-9 | the next feeding is a whole number of hours, three to four, after the current time, and that number is the age's interval |
| Schedule.OlderWaitsLonger | scripts/initSmartCare.js:7-8 | an older subject never waits less |
| Schedule.IntervalSwitchesAtThirtyDays | scripts/initSmartCare.js:7-8 | day 29 still waits three hours and day 30 waits four |
| Schedule.AgeInDays | scripts/initSmartCare.js:15 | the age d satisfies (d − 1) days < now − birth ≤ d days: the ceiling |
| Schedule.AgeIsTheCeiling | scripts/initSmartCare.js:15 | only one day count brackets the elapsed time that way |
| Schedule.PartialDayCountsWhole | scripts/initSmartCare.js:15 | an exact number of days counts no extra, and one millisecond more counts a whole extra day |
| Schedule.StartedThirtiethDayFeedsEveryFourHours | scripts/initSmartCare.js:7-15 | a subject one moment into its thirtieth day is already on the four-hour interval |

## Left out

- Database access is left out because it is I/O in a foreign library. This covers `connectDB`, the Mongoose models, the CRUD routes, the insights route, and the seeding flow that writes the sample subject. The store's behaviour is the `store` parameter of `FeedbackRoute.PostFeedback`.
- `connectDB` catches and logs a connection failure without rethrowing (lib/database.js:10-15), so the feedback route goes on to the store. A store that then fails is the `StoreFailed` outcome.
- The five-minute insight cache is left out as database I/O. The insights route looks up an entry for the subject created within the last five minutes and returns it if found (app/api/smartcare/insights/[baby_id]/route.js:49-56). Otherwise it writes the fresh snapshot as a new entry (lines 74-78).
- React rendering is left out: JSX, state hooks, the 2.5-minute auto-refresh timer, the `fetch` calls, the demo page's `alert` feedback and the navigation bar.
- app/models/SmartCare.js and next.config.mjs are not part of this model. The first is a static page; the second is build configuration.
- Numbers are exact reals. IEEE rounding of the gap arithmetic, the mean and `Math.round` is not modelled. `NaN` is modelled only for the one case the analyzers can reach.
- Sleep.HourMinuteSplit: exact for reals, but the source computes `Math.floor((avgNapTime % 1) * 60)` in doubles (lib/smartcare-analyzer.js:78). There `(h % 1) * 60` can fall just below a whole minute. A single nap at 13:59 gives 13 + 59/60, whose fraction times 60 is below 59, so the source shows "13:58" where the model shows "13:59". The same drop of one minute happens for 622 of the 1440 single-nap minutes.
- Growth.Classify: exact for reals, but the source compares the double difference with 0.1 and 0.5 (lib/smartcare-analyzer.js:122, 137). Weights 1.0 then 1.1 give the double difference 0.10000000000000009, which is above 0.1, so the source says "increasing" where the model says "stable".
- `parseFloat` of string measurements is not modelled. Measurements are numbers already.
- `Date` parsing, the conversion to local time and daylight-saving changes are not modelled. A nap start is a local minute of the day, and the zone is a fixed offset.
- The ISO text of `toISOString`, and its range error for huge time values, are not modelled. Timestamps stay integers.
- The feeding message is modelled as `PredictedIn(hours)` rather than as text, because JavaScript's decimal rendering of a real is not modelled.
- `null` and `undefined` are one `None`, and JSON arrays and objects are one truthy `JComposite` value. For time fields the two differ in the source: `new Date(null)` is the epoch, time value 0, while `new Date(undefined)` is an Invalid Date. The model's time fields never read as either (see the three lines below).
- The `timestamp` the dashboard sends with feedback is not modelled, because the route ignores it.
- Feeding.AnalyzeFeedingPatterns: takes the standard deviation of the gaps as the parameter `sd` instead of computing `Math.sqrt`.
- Feeding.RegularFeedingsReachCeiling: shows that 0 is a standard deviation of equal gaps (0 · 0 equals their variance 0) and that 0 then gives 0.95. It does not show that 0 is the only non-negative root of 0. That step is nonlinear real arithmetic that the solver does not settle reliably.
- Feeding.AnalyzeFeedingPatterns: requires every entry to carry a truthy `timestamp` or `created_at` once there are three or more. In the source, an entry whose fallback `created_at` is `undefined` makes an Invalid Date and so a NaN mean gap. The predicted `Date` is then invalid, and `toISOString()` throws a `RangeError` (lib/smartcare-analyzer.js:41). That throw is not modelled. An entry whose fallback is `null` instead reads as time 0, the epoch, and gives finite gaps (lines 21-22, 34). That case is left out too, because the model has no time-0 reading of a missing field.
- Growth.AnalyzeGrowthTrends: requires every entry to carry a truthy `date` or `timestamp` once there are two or more. In the source, an entry whose fallback `timestamp` is `undefined` makes the comparator return NaN, which leaves the order implementation-defined. An entry whose fallback is `null` sorts with key 0, the epoch (lib/smartcare-analyzer.js:109). Neither case is modelled.
- Growth.SortByTime: the source sorts its argument in place. The model returns a new sequence, so the caller's array is not reordered.
- Sleep.AnalyzeSleepPatterns: in the source, a nap whose fallback `timestamp` is `undefined`, or whose time is unparsable, gives NaN hours. Then `setHours(NaN, NaN, 0, 0)` makes the prediction an Invalid Date, and `toISOString()` throws a `RangeError` (lib/smartcare-analyzer.js:83, 90). A nap whose fallback is `null` counts as starting at the epoch's local time of day (lines 62-63). The model's entries always carry a minute of the day, so neither case is modelled.
