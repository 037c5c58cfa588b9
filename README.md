# fatigue-monitor core in Dafny

A model of the computational core of the fatigue-monitor iOS app. A wrist
sensor streams heart-rate samples. A view controller buffers them, rejects
outliers, and once a minute runs an anaerobic-work-capacity (AWC) fatigue
estimate. A score above zero is offered to a rate limiter, which sends one
warning to the crew at most every three hours. The rest of the core is a
set of small rules around that pipeline:

- the hourly fatigue history shown in the crew chart, in its current and its older version;
- the survey gate: today's count, one-hour spacing and the survey-day test;
- the weekday arithmetic that gate relies on;
- the survey screens' decisions;
- the daily reset of the stored fatigue level;
- the dashboard's display cap and risk bands;
- `Operation.setError`;
- the crew's name list and device-to-first-name map.

Modules, one per source file, plus shared modules:

- `Base`: `Option`, and Swift's truncating `/` and `%` (`Quot`, `Rem`).
- `FatigueEstimator`: `ViewController`'s estimator.
  - The behaviour is given as pure transition functions: `Receive`, `Assess`, `Highlight` and the session fold `Run`.
  - The class `ViewController` keeps the source's fields. Its methods are proved to follow those functions.
  - A ghost event log records uploads, UI callbacks and notifications.
- `HourlyObservations`: what both `getFatigueLevels` versions share.
  - The records, `Peer.Observation` and `Peer`.
  - The dictionary-filling loop `BucketByHour` and the observation loop `BuildObservations`.
  - The reference functions `HourLevels`, `ObservationAt` and `WindowObservations`.
  - The versions differ only in how a later value of an hour enters the sum, selected by `SumRule`: capped at 100, or raw.
- `FirebaseManager`: the current query, with window `xAxisStartHour` plus 9 hours. `LegacyFirebaseManager`: the older query, with window 9..<18.
- `AppModel`: the fields of `ModelData` that the core writes.
- `Utilities`, `SurveyManager`, `SurveyInfoView`, `SurveyDetailsView`, `DPMApp`, `InfoView`, `Operations`, `RegisteredUsers`: one per source file.

Inputs the app takes from its environment become parameters:

- the clock (`now`, in whole seconds);
- the hour of day of each record, and the current hour;
- midnight of today;
- the day number of a date;
- the day of the month;
- the result of a document-store query (`None` when the query failed);
- the values of persisted settings.

A day number counts days from Thursday 1 January 1970, so its weekday is
`(day + 4) % 7`.

Two facts of the estimator as the code has them:

- There is one AWC update, `max(awc + k * (HRR - cp), 0)`, for both signs of `HRR - cp` (E4tester/View/Dashboard/ViewController.swift:215). No separate recovery multiplier is applied when the heart rate is below critical power.
- The warning cooldown is the constant `3 * 60`, labelled "in minutes", times 60, that is 10800 seconds or three hours (ViewController.swift:241,244).

## Model

| member | source | states |
|---|---|---|
| FatigueEstimator.AverageOf | E4tester/View/Dashboard/ViewController.swift:191-198 | 0 for an empty buffer; otherwise the truncated mean: `r * n <= sum < (r + 1) * n` for a non-negative sum |
| FatigueEstimator.AverageWithinRange | E4tester/View/Dashboard/ViewController.swift:191-198 | the average of a non-empty buffer lies between its least and greatest sample |
| FatigueEstimator.SumBounds | E4tester/View/Dashboard/ViewController.swift:195 | `n * min <= reduce(0, +) <= n * max` |
| FatigueEstimator.DefaultCalibration | E4tester/Managers/UserInfoLoader.swift:12-15 | the loader's starting calibration (rest 65, critical power 16, k 15, total 200) with a positive total; usable iff the maximum heart rate is not 65 |
| FatigueEstimator.Hrr | E4tester/View/Dashboard/ViewController.swift:210 | 0 at the resting rate, 100 at the maximum, non-positive below rest, and in between the truncated percentage `r * d <= (avg - rest) * 100 < (r + 1) * d` of the reserve `d` |
| FatigueEstimator.NextAwc | E4tester/View/Dashboard/ViewController.swift:215 | the new accumulator is never negative, is at least the unclamped update, and is either 0 or exactly that update |
| FatigueEstimator.FatigueScore | E4tester/View/Dashboard/ViewController.swift:216 | for a non-negative accumulator and a positive total the score is the truncated percentage: `r * total <= awc * 100 < (r + 1) * total`, not capped |
| FatigueEstimator.Highlight | E4tester/View/Dashboard/ViewController.swift:239-255 | only the send time can change; nothing is sent iff fewer than 10800 s passed since the last warning; otherwise two events and the send time becomes now |
| FatigueEstimator.Assess | E4tester/View/Dashboard/ViewController.swift:200-235 | the time is recorded and the send time never goes back; no event iff the average is 0, and then buffer and accumulator are kept; otherwise the buffer empties, the accumulator is non-negative and 3 to 5 events go out |
| FatigueEstimator.Accepted | E4tester/View/Dashboard/ViewController.swift:320 | an empty buffer, and any buffer averaging 0, takes any sample; for a buffer of positive rates the average is non-zero and an accepted rate lies within 30 of the buffer's least and greatest sample |
| FatigueEstimator.Receive | E4tester/View/Dashboard/ViewController.swift:312-331 | the send time never goes back, a non-negative accumulator stays so, the buffer is kept, grows by the sample or empties, and at most six events go out |
| FatigueEstimator.Run | E4tester/View/Dashboard/ViewController.swift:312-331 | over a session of samples the send time never goes back and at most six events go out per sample |
| FatigueEstimator.ViewController.constructor | E4tester/View/Dashboard/ViewController.swift:18-24 | empty buffer, no assessment yet, zero accumulator, the persisted send time |
| FatigueEstimator.ViewController.UploadFatigueHighlight | E4tester/View/Dashboard/ViewController.swift:239-255 | the fields and the event log move exactly as `Highlight`; calibration and sender settings unchanged |
| FatigueEstimator.ViewController.AssessFatigue | E4tester/View/Dashboard/ViewController.swift:200-235 | the fields and the event log move exactly as `Assess`; the accumulator stays non-negative |
| FatigueEstimator.ViewController.DidReceiveIBI | E4tester/View/Dashboard/ViewController.swift:312-331 | the fields and the event log move exactly as `Receive` |
| FatigueEstimator.TooHighIgnored | E4tester/View/Dashboard/ViewController.swift:314-317 | a heart rate above the maximum changes nothing and emits nothing, not even an assessment |
| FatigueEstimator.BufferingWithoutAssessment | E4tester/View/Dashboard/ViewController.swift:319-324 | without an assessment the buffer grows by the sample iff it is accepted, with one upload, and nothing else changes |
| FatigueEstimator.AssessmentTrigger | E4tester/View/Dashboard/ViewController.swift:327-329 | an assessment runs iff the sample passed the maximum check and is more than 60 s after the last one, outlier or not |
| FatigueEstimator.EmptyAssessment | E4tester/View/Dashboard/ViewController.swift:203-209 | an assessment of a buffer averaging 0 only records the time: buffer and accumulator kept, no event |
| FatigueEstimator.AssessmentEffects | E4tester/View/Dashboard/ViewController.swift:210-234 | the single AWC update, three reporting events, buffer emptied, and the capped warning sent iff the score is positive and the cooldown is over |
| FatigueEstimator.AwcNeverNegative | E4tester/View/Dashboard/ViewController.swift:215 | after any sequence of samples the accumulator is non-negative |
| FatigueEstimator.HighlightWarning | E4tester/View/Dashboard/ViewController.swift:239-255 | a highlight sends at most one warning, at the new persisted time, at least 10800 s after the previous one |
| FatigueEstimator.AssessWarning | E4tester/View/Dashboard/ViewController.swift:230-234 | an assessment sends at most one warning, under the same rule |
| FatigueEstimator.ReceiveWarning | E4tester/View/Dashboard/ViewController.swift:312-331 | a sample sends at most one warning, under the same rule |
| FatigueEstimator.WarningsSpaced | E4tester/View/Dashboard/ViewController.swift:241-248 | over a whole session consecutive warnings are at least 10800 s apart, and the persisted time ends as the last warning's |
| FatigueEstimator.WarningTimesAppend | E4tester/View/Dashboard/ViewController.swift:253-254 | the warnings of two event sequences in a row are the warnings of each in order |
| FatigueEstimator.RateLimitScenario | E4tester/View/Dashboard/ViewController.swift:244 | a second warning 10799 s after the first is suppressed, one 10800 s after it is sent |
| FatigueEstimator.TwoCycleScenario | E4tester/View/Dashboard/ViewController.swift:210-216 | two cycles with the loader's starting calibration (rest 65, critical power 16, k 15, total 200) and maximum 187: HRR 61, AWC 675, score 337, then HRR 0, AWC 435, score 217 |
| HourlyObservations.HourLevelsEmpty | E4tester/Model/Firebase/FirebaseManager.swift:267-270 | an hour has no levels iff no record falls in it |
| HourlyObservations.MinMaxRawBounds | E4tester/Model/Firebase/FirebaseManager.swift:272-278 | the stored min and max are a lower and an upper bound of the hour's raw levels, each attained by one of them |
| HourlyObservations.Later | E4tester/Model/Firebase/FirebaseManager.swift:276-280 | a later value adds at most 100 under the cap: 100 when missing or above 100, and itself up to 100; without the cap its raw value, -1 when missing |
| HourlyObservations.HourSum | E4tester/Model/Firebase/FirebaseManager.swift:272-281 | the first value raw plus the later terms; without the cap the plain sum of the later terms over all values; non-negative when every value is present and non-negative |
| HourlyObservations.ObservationAt | E4tester/Model/Firebase/FirebaseManager.swift:301-310 | the observation of hour h: its range is never inverted and its average never negative, so `curMin..<curMax` cannot trap; an hour no record falls in gets the placeholder |
| HourlyObservations.Buckets | E4tester/Model/Firebase/FirebaseManager.swift:263-282 | the two dictionaries have the same hours, and each count lies between 1 and the number of records |
| HourlyObservations.BucketByHour | E4tester/Model/Firebase/FirebaseManager.swift:263-282 | the dictionaries are `Buckets` of the records: one entry per hour with records and none other, holding min, max, sum and the record count |
| HourlyObservations.BucketsAt | E4tester/Model/Firebase/FirebaseManager.swift:272-281 | an hour is in the dictionaries iff it has records, and then holds min and max raw level, the hour's sum and its record count |
| HourlyObservations.BucketsBucketed | E4tester/Model/Firebase/FirebaseManager.swift:263-282 | the same for all hours at once, with positive counts and min <= max |
| HourlyObservations.BuildObservations | E4tester/Model/Firebase/FirebaseManager.swift:299-312 | `max(0, upper - lower)` observations, the i-th read back from the dictionaries for hour `lower + i` |
| HourlyObservations.BuiltIsWindow | E4tester/Model/Firebase/FirebaseManager.swift:299-312 | the observation loop over bucketed records yields `WindowObservations`, whatever the rule |
| HourlyObservations.WindowObservations | E4tester/Model/Firebase/FirebaseManager.swift:299-312 | the window has `max(0, upper - lower)` observations, the i-th for hour `lower + i` |
| HourlyObservations.ObservationMeaning | E4tester/Model/Firebase/FirebaseManager.swift:301-310 | for an hour with records and a non-negative sum: the range is the min and max raw level and the average is the truncated mean; any other hour gets range 0..<0 and average 0 |
| HourlyObservations.LaterSumOrderFree | E4tester/Model/Firebase/FirebaseManager.swift:280 | the sum of the later terms does not depend on the order of the values |
| HourlyObservations.HourLevelsOrderFree | E4tester/Model/Firebase/FirebaseManager.swift:266-270 | reordering the records only reorders each hour's levels |
| HourlyObservations.MinMaxRawOrderFree | E4tester/Model/Firebase/FirebaseManager.swift:272-278 | the least and the greatest raw level do not depend on the order |
| HourlyObservations.LaterSumSnoc | E4tester/Model/Firebase/FirebaseManager.swift:280 | each later record adds its own term to the hour's sum |
| FirebaseManager.UpperBound | E4tester/Model/Firebase/FirebaseManager.swift:285-297 | the window end is `lower` for a future range, `min(lower + 9, hourNow + 1)` for today's, and `lower + 9` for a past one |
| FirebaseManager.QueriedPeer | E4tester/Model/Firebase/FirebaseManager.swift:261-312 | the peer of a successful query: the device id, the stored first name or "Unknown", and for each hour of the window its capped observation |
| FirebaseManager.GetFatigueLevels | E4tester/Model/Firebase/FirebaseManager.swift:245-251 | at call time `crew` is emptied; the stored level and reset day are kept |
| FirebaseManager.FatigueLevelsReceived | E4tester/Model/Firebase/FirebaseManager.swift:255-316 | when the query returns, its peer is appended to the crew as it then is; on error the crew is kept |
| FirebaseManager.UpdateCrewOfTwo | E4tester/Model/ModelData.swift:78-88 | two members' queries overlap: both clears come first, and the crew ends with both successful peers in the order the results arrive |
| FirebaseManager.CapOrderQuirk | E4tester/Model/Firebase/FirebaseManager.swift:272-281 | the first value of an hour is not capped: [50, 150] averages 75 but [150, 50] averages 100 |
| FirebaseManager.CappedTermsBounded | E4tester/Model/Firebase/FirebaseManager.swift:280 | each later value adds at most 100 to the hour's sum |
| FirebaseManager.WindowCases | E4tester/Model/Firebase/FirebaseManager.swift:285-312 | a future range gives no observations, a past one nine, today's at most nine and none after the current hour |
| LegacyFirebaseManager.UpperBound | E4tester/Model/FirebaseManager.swift:219-230 | the window end is 9 for a future range, `min(18, hourNow + 1)` for today's, and 18 for a past one |
| LegacyFirebaseManager.QueriedPeer | E4tester/Model/FirebaseManager.swift:195-245 | the peer of a successful query: the device id, the stored first name or "Unknown", and for each hour 9..<upper its uncapped observation |
| LegacyFirebaseManager.GetFatigueLevels | E4tester/Model/FirebaseManager.swift:178-184 | at call time `crew` is emptied; the stored level and reset day are kept |
| LegacyFirebaseManager.FatigueLevelsReceived | E4tester/Model/FirebaseManager.swift:190-249 | when the query returns, its peer is appended to the crew as it then is; on error the crew is kept |
| LegacyFirebaseManager.HourSumOrderFree | E4tester/Model/FirebaseManager.swift:204-215 | without the cap an hour's sum is the same for any order of its levels |
| LegacyFirebaseManager.UncappedOrderFree | E4tester/Model/FirebaseManager.swift:200-243 | the older query's observation of every hour is the same for any order of the records |
| LegacyFirebaseManager.NoCapOrder | E4tester/Model/FirebaseManager.swift:214 | without the cap, [150, 50] and [50, 150] both average 100 |
| LegacyFirebaseManager.MissingOnly | E4tester/Model/FirebaseManager.swift:204-243 | an hour whose only record has no level sums to -1 and gets the placeholder |
| LegacyFirebaseManager.WindowCases | E4tester/Model/FirebaseManager.swift:219-245 | a future range gives no observations, a past one hours 9..<18, today's none after the current hour |
| Utilities.DayOfWeek | E4tester/Model/Utilities.swift:22-30 | the weekday number is in 0..6 |
| Utilities.DayOfWeekPeriodic | E4tester/Model/Utilities.swift:22-30 | the weekday repeats every seven days |
| Utilities.Step | E4tester/Model/Utilities.swift:20-33 | one iteration lands 1 to 3 days on, on a weekday |
| Utilities.AddWeekdays | E4tester/Model/Utilities.swift:16-36 | no steps leave the date; `days` steps land on a weekday between `date + days` and `date + 3 * days` |
| Utilities.CountWeekdays | E4tester/Model/Utilities.swift:16-36 | no weekdays in an empty interval, at most one per day, and at least one when the last day is a weekday |
| Utilities.AddDaysExcludingWeekends | E4tester/Model/Utilities.swift:16-36 | `days <= 0` leaves the date unchanged; otherwise the result is a weekday after the date with exactly `days` weekdays up to it, between `date + days` and `date + 3 * days` |
| Utilities.StepNextWeekday | E4tester/Model/Utilities.swift:20-33 | one iteration passes exactly one weekday: every day it skips is a weekend day |
| Utilities.CountWeekdaysSplit | E4tester/Model/Utilities.swift:20-33 | weekday counts over adjacent intervals add up |
| Utilities.AddWeekdaysMeaning | E4tester/Model/Utilities.swift:16-36 | the loop's result is the `days`-th weekday strictly after the date |
| Utilities.WeekdayCountUnique | E4tester/Model/Utilities.swift:16-36 | two weekdays with the same number of weekdays before them are the same day |
| Utilities.AddWeekdaysIsOnly | E4tester/Model/Utilities.swift:16-36 | any weekday that is the `days`-th after the date is the loop's result |
| Utilities.FridayToMonday | E4tester/Model/Utilities.swift:25-30 | from a Friday or a Saturday, one weekday on is the Monday |
| Utilities.DaysFromToday | E4tester/Model/Utilities.swift:38-43 | the seconds difference divided by 86400, truncated toward zero for dates before today |
| Utilities.DaysFromTodayOf | E4tester/Model/Utilities.swift:38-43 | a moment k days and s seconds after midnight gives k, except k + 1 on an earlier day after its midnight |
| Utilities.DaysFromTodayExamples | E4tester/Model/Utilities.swift:39-42 | 1 January relative to 5 January is -4, and the last second of yesterday gives 0 |
| Utilities.GetColor | E4tester/Model/Utilities.swift:55-74 | a colour exists iff the index is non-negative or its Swift remainder by 6 is 0; for a non-negative index it is `Colors[index % 6]` |
| Utilities.GetColorPeriodic | E4tester/Model/Utilities.swift:72-74 | colours repeat every six indices |
| Utilities.GetColorNegative | E4tester/Model/Utilities.swift:72-74 | Swift's `%` keeps the sign of a negative index: -1 falls outside the palette (the source traps, the model answers `None`) while -6 gives the first colour |
| SurveyManager.CountToday | E4tester/View/Survey/SurveyManager.swift:14-27 | at most the list's length, and all of it when every time is inside today |
| SurveyManager.SurveysSubmittedToday | E4tester/View/Survey/SurveyManager.swift:14-27 | the count of stored times strictly inside today, at most the list's length |
| SurveyManager.CountTodayAppend | E4tester/View/Survey/SurveyManager.swift:20-24 | one more stored time adds one to the count iff it lies strictly inside today |
| SurveyManager.CountTodayExtremes | E4tester/View/Survey/SurveyManager.swift:20-24 | the count is 0 iff no stored time is inside today, and the list's length iff all are |
| SurveyManager.BoundariesExcluded | E4tester/View/Survey/SurveyManager.swift:21 | times at midnight and at the next midnight are not counted |
| SurveyManager.SufficientTimePassed | E4tester/View/Survey/SurveyManager.swift:40-55 | true with nothing stored, otherwise iff the last stored time plus 3600 minus 60 is before now |
| SurveyManager.SurveyStore.AddSurveyTimestamp | E4tester/View/Survey/SurveyManager.swift:58-62 | the time is appended, earlier entries kept in order |
| SurveyManager.GateAfterAdd | E4tester/View/Survey/SurveyManager.swift:47-62 | right after a survey at t the gate is open iff now > t + 3540 |
| SurveyManager.GateReadsLast | E4tester/View/Survey/SurveyManager.swift:48 | the gate reads the last time stored, not the latest time |
| SurveyManager.DoSurveyToday | E4tester/View/Survey/SurveyManager.swift:30-35 | true iff today is the start day or the first weekday after it |
| SurveyManager.SubmitToday | E4tester/View/Survey/SurveyManager.swift:14-62 | a survey stored inside today raises today's count by one and closes the gate |
| SurveyInfoView.BarAt | E4tester/View/Survey/SurveyInfoView.swift:58-82 | a bar is green iff its index is below the response count; unfilled bars are gray from index 5 and red below |
| SurveyInfoView.Bars | E4tester/View/Survey/SurveyInfoView.swift:57-58 | exactly eight bars, the i-th filled iff i < responses |
| SurveyInfoView.FilledCount | E4tester/View/Survey/SurveyInfoView.swift:57-82 | the green bars number the responses clamped to 0..8; the red ones the required responses still missing |
| SurveyInfoView.CountFrom | E4tester/View/Survey/SurveyInfoView.swift:57-82 | the same counts for the bars from index k on |
| SurveyInfoView.SurveyOffer | E4tester/View/Survey/SurveyInfoView.swift:107-128 | eight responses show only the max-reached text; below that the return time if the hour has not passed, else the continue link if the details were read, else the read-details prompt |
| SurveyInfoView.SurveyInfoScreen.TapDetails | E4tester/View/Survey/SurveyInfoView.swift:101-104 | the tap enables the continue button |
| SurveyInfoView.SurveyInfoScreen.Offer | E4tester/View/Survey/SurveyInfoView.swift:107-128 | with the button enabled never the read-details prompt; the survey only with the button enabled, the hour passed and fewer than eight responses; the prompt when only the button is missing |
| SurveyInfoView.NoPromptAfterDetails | E4tester/View/Survey/SurveyInfoView.swift:113-124 | once the details were read, the prompt never appears |
| SurveyDetailsView.ContentOf | E4tester/View/Survey/SurveyDetailsView.swift:53-82 | the error text is shown iff the page is outside 1..5 |
| SurveyDetailsView.NextControlOf | E4tester/View/Survey/SurveyDetailsView.swift:106-152 | a forward button before the last page; on it the survey link, the next-time button or "N/A" as responses and spacing decide |
| SurveyDetailsView.SurveyDetailsScreen.constructor | E4tester/View/Survey/SurveyDetailsView.swift:48-49 | the page starts at 1, inside 1..5 |
| SurveyDetailsView.SurveyDetailsScreen.Back | E4tester/View/Survey/SurveyDetailsView.swift:89-97 | the page drops by one unless that would go below 1, and stays inside 1..5 |
| SurveyDetailsView.SurveyDetailsScreen.Forward | E4tester/View/Survey/SurveyDetailsView.swift:144-146 | the page rises by one only while it stays at most 5 |
| SurveyDetailsView.NoErrorPage | E4tester/View/Survey/SurveyDetailsView.swift:80-82 | no page in 1..5 shows the error text |
| SurveyDetailsView.WalkThrough | E4tester/View/Survey/SurveyDetailsView.swift:89-152 | four forward taps reach the last page, a fifth does nothing, back taps return to page 1 |
| SurveyDetailsView.LastPageAgreesWithInfo | E4tester/View/Survey/SurveyDetailsView.swift:106-142 | on the last page the survey link and "N/A" appear exactly when the info screen offers to continue or shows the max-reached text |
| SurveyDetailsView.NoLinkRightAfterSurvey | E4tester/View/Survey/SurveyDetailsView.swift:107-118 | right after a survey is stored at now, the last page does not offer the survey link |
| DPMApp.Reset | E4tester/DPMApp.swift:32-38 | afterwards the reset day is today's day of the month; the level is 0 when no reset was recorded or the day differs, and nothing changes otherwise |
| DPMApp.ResetFatigueLevel | E4tester/DPMApp.swift:32-38 | the stored level and reset day move exactly as `Reset`; the crew is untouched |
| DPMApp.ResetKeepsLevel | E4tester/DPMApp.swift:34-36 | the level survives iff a reset was recorded for today's day of the month, or it was already 0 |
| DPMApp.ResetIdempotent | E4tester/DPMApp.swift:32-38 | two resets on the same day are one |
| DPMApp.SameDayLaterMonth | E4tester/DPMApp.swift:33-34 | the same day of the month in another month does not reset again |
| InfoView.NatToStringRoundTrip | E4tester/View/Dashboard/InfoView.swift:221 | the decimal rendering of n consists of digits and reads back as n |
| InfoView.FatigueLevelDisplay | E4tester/View/Dashboard/InfoView.swift:217-222 | the display of a known level takes one to three characters |
| InfoView.DisplayIsCapped | E4tester/View/Dashboard/InfoView.swift:217-222 | the displayed number of a non-negative level is the level capped at 100 |
| InfoView.FatigueText | E4tester/View/Dashboard/InfoView.swift:102 | "--" iff the level is negative |
| InfoView.ShowsPercent | E4tester/View/Dashboard/InfoView.swift:96-109 | the "%" suffix is shown iff the fatigue text is a number, not "--" |
| InfoView.HeartRateText | E4tester/View/Dashboard/InfoView.swift:54 | "--" iff the heart rate is 0 |
| InfoView.FatigueBand | E4tester/View/Dashboard/InfoView.swift:112-150 | Low below 40, Moderate in 40..69, High in 70..89, Critical from 90, each iff its range, so exhaustive and disjoint |
| InfoView.BandMonotone | E4tester/View/Dashboard/InfoView.swift:112-150 | a higher level never shows a lower band |
| InfoView.CappedIsCritical | E4tester/View/Dashboard/InfoView.swift:112-222 | a level shown as "100" is in the Critical band |
| Operations.Operation.constructor | E4tester/Model/Operation.swift:16-22 | status notStarted, "Loading...", "An error occurred.", no error shown |
| Operations.Operation.SetError | E4tester/Model/Operation.swift:26-30 | message stored, status failure, error shown; the progress message is kept |
| Operations.SetErrorTwice | E4tester/Model/Operation.swift:26-30 | a second identical `setError` changes nothing |
| RegisteredUsers.RegisteredUserArr.GetUserFullNames | E4tester/Model/Firebase/RegisteredUser.swift:23-31 | one "first last" per user in order, `arr` unchanged, the map refreshed |
| RegisteredUsers.RegisteredUserArr.UpdateLocalStorage | E4tester/Model/Firebase/RegisteredUser.swift:33-45 | nothing for an empty list; otherwise the stored map is `NameMap(arr)` |
| RegisteredUsers.NameMapKeys | E4tester/Model/Firebase/RegisteredUser.swift:38-42 | the map's keys are exactly the users' device ids |
| RegisteredUsers.NameMapLastWins | E4tester/Model/Firebase/RegisteredUser.swift:40-42 | each device id maps to the first name of the last user with that id |
| RegisteredUsers.SharedDevice | E4tester/Model/Firebase/RegisteredUser.swift:40-42 | two users on one device: the later first name is stored |

## Left out

- Floating point. The source computes HRR and the fatigue score as `Int(Double(a) / Double(b) * 100)`. The model uses the truncating integer quotient `(a * 100) / b` instead. The two can differ by one where the products round.
- The heart rate `Int(60 / ibi)` from the inter-beat interval is taken as an integer input. The case `ibi == 0` is not modelled.
- The age-based maximum heart rate `208 - Int(0.7 * age)` is a constructor parameter.
- FatigueEstimator.ViewController.constructor: requires a calibration with `maxHeartRate != restHr` and `totalAwc != 0`. The Swift code traps on the conversion of an infinite or NaN quotient there, so those divisions have no modelled outcome.
- The calibration is fixed for a session. The profile refresh (E4tester/Model/Firebase/FirebaseManager.swift:95-100) can replace it while the controller runs, with 0 for a missing field, so a `total_awc` of 0 can reach the division the constructor's precondition excludes. That refresh is not modelled.
- Times are whole seconds. The source keeps sample timestamps and the clock as `Double` (ViewController.swift:18-24 and 327), so the `> 60` assessment trigger can differ from the model on fractional edges. An assessment also reads the clock three times (ViewController.swift:203, 225 and 243); the model uses one `now` for all three. Each query handler reads the clock three more times (E4tester/Model/Firebase/FirebaseManager.swift:285, 289 and 292; E4tester/Model/FirebaseManager.swift:219, 222 and 225); the model's `UpperBound` takes one `now` for both comparisons and a separate `hourNow` for the hour of day. `uploadFatigueWarning` stamps its record with its own reading (E4tester/Model/Firebase/FirebaseManager.swift:323), while the model's warning upload event reuses the assessment's `now` from ViewController.swift:243.
- The UI callbacks go through the optional `delegate?` and do nothing when no delegate is set. The model always emits `HeartRateShown` and `FatigueLevelShown`.
- The current query (E4tester/Model/Firebase/FirebaseManager.swift:251-252) reads the signed-in user's `fatigue_levels` whatever `deviceId` it is given, so every crew peer is built from that user's records under the peer's own id and name; the older query filters on `device_uuid`. The `query` parameter of `FirebaseManager.FatigueLevelsReceived` and `FirebaseManager.UpdateCrewOfTwo` is a free input and does not capture that every peer reads the same collection.
- 64-bit overflow of `reduce(0, +)`, of the accumulator and of the products is not modelled; integers are unbounded.
- Sensor discovery, connection, BLE status and the table view of `ViewController` are driver and UI code. That includes the connection callback (ViewController.swift:354), which sets `lastUpdateTime` to ten seconds after the connection and so delays the first assessment; the model starts `lastUpdateTime` at 0.
- Network and storage are left out: document-store uploads and queries, group messaging, the push server and `UserDefaults`. Their effects appear only as ghost events, as query-result parameters, and as fields holding persisted settings.
- Calendar and locale are not modelled: `Calendar.component`, `startOfDay`, time zones, daylight-saving days not 86400 s long, and the `DateFormatter` formats. Days are day numbers and hours are inputs.
- SurveyManager.SufficientTimePassed: only the boolean is modelled, not the formatted next-earliest time.
- The heat-strain inference and the signal processing of the cloud function are foreign libraries over floating point.
- `SurveyView`, `SurveyInfoViewDetails`, the other screens, `ModelData`'s network code and the warning loaders are not part of this model.
- The random `id` of `RegisteredUser` is not modelled. It plays no part in the names or the map.
- The page texts of `SurveyDetailsView` are kept as titles only.
- The same risk-band thresholds appear in `MetricDetailView`. They are not modelled a second time.
