# Evening stillness reflections: the app's logic in Dafny

This project models the logic inside a single-page journaling and
meditation app, and proves properties of that model. Most of the app is
presentation code and calls to a hosted database and auth service. The
pieces that decide something are modelled here:

- **Streaks and statistics** (`MeditationStats`, `MeditationLogs`):
  - the current streak, a walk back from today of at most 365 days;
  - the longest streak, a scan of the latest-first date list for runs of adjacent days;
  - the milestone notice and the achievement levels;
  - the two duration formatters;
  - the aggregate statistics;
  - the list operations of the log hook;
  - the date and music normalisation of a save.
- **Goal progress** (`MeditationGoals`):
  - the daily, weekly (from Monday) and monthly half-open windows;
  - per-log minutes, rounded, then summed and compared with the target;
  - adding and deleting goals;
  - the summary counts.
- **The weekly summary** (`WeeklySummary`):
  - the seven-day mood grid, filled from the first entry of each day;
  - the tag count over the last seven entries;
  - the three top tags.
- **The reflection form** (`ReflectionForm`):
  - the tag list, trimmed and free of duplicates;
  - the entry a submit builds;
  - the reset after a successful save.
- **The sign-up e-mail check** (`EmailValidation`): a chain of string tests that stops at the first failure. The tests are, in order:
  - format;
  - blocked domains;
  - disposable domains;
  - popular-domain misspellings;
  - mail servers;
  - role addresses.
- **Small state machines**:
  - the five-minute timer (`MeditationTimer`);
  - the calming-sounds player (`MusicTracks`);
  - the notification record and its message templates (`Notifications`);
  - the log table with its deleting-row marker (`MeditationLogView`);
  - the authentication guard (`AuthGuard`).

Supporting modules:

- `Text`: JavaScript string operations.
  - number printing and `padStart`, `trim`, ASCII `toLowerCase`;
  - `includes`/`indexOf`, `replace` of the first occurrence, `split` and `join`;
  - readers that turn printed text back into values, for round trips.
- `Calendar`: dates.
  - proleptic Gregorian dates, with day numbers counted from 0001-01-01, which was a Monday;
  - `getDay`;
  - `format(d, "yyyy-MM-dd")` and a parser for it.
- `Lists`: `filter` and the `reduce` sum.
- `Sorting`: a descending insertion sort.
- `Wrappers`: `Option` and `Result`.

Modelling conventions:

- **Dates and instants.** Dates are day numbers. The current date or instant is a parameter. An instant is milliseconds, and a `yyyy-MM-dd` date begins at `date * 86400000`.
- **Durations** are whole seconds.
- **Rounding.** `Math.round(a / b)` on non-negative values is `(2a + b) / (2b)`.
- **Service results are inputs.** The database, the auth service, the DNS lookup and an awaited save or delete are not modelled. Their outcome is passed in: a `Query`, an `Insertion`, an `Option<bool>` lookup, a `saved` flag or a `Result`.
- **Handlers that `await` are split in two.** One method is the part before the `await`; the other is the part after it has settled.
- **React state and effects.** A component's state is a class. Its handlers are methods with `modifies this`. An effect's re-runs are explicit method calls.

The timer is modelled as the code behaves, with no guard added. The effect's completion branch tests `interval.current`. That ref is set when the first interval is scheduled and is never set back to null. So when a running timer reaches zero:

1. The effect stops the timer and plays the sound.
2. The change of `running` runs the effect again.
3. That second run finds the ref still set and plays the sound a second time.

`Timer.Tick` states this: a running timer that reaches zero ends with `chimes == old(chimes) + 2`.

## Model

| member | source | states |
|---|---|---|
| MeditationStats.StreakDates | src/components/MeditationStats.tsx:40-41 | The `dates` list is latest first and holds exactly the days of the logs with their multiplicities: a repeated day stays repeated. |
| MeditationStats.DatesOfPermutation | src/components/MeditationStats.tsx:40-41 | Reordering the logs keeps the multiset of their days, so sorting neither adds nor drops a day. |
| MeditationStats.CurrentRun | src/components/MeditationStats.tsx:45-57 | The streak is at most the budget. Every day from today back over the streak is logged. When the budget is not used up, the day just before the streak is not logged. |
| MeditationStats.CurrentStreak | src/components/MeditationStats.tsx:45-57 | The walk-back loop computes exactly `CurrentRun(dates, today, 365)`. It is 0 when today is not logged and never above 365. |
| MeditationStats.RunEnding | src/components/MeditationStats.tsx:60-76 | The run that ends at position i has length between 1 and i + 1. |
| MeditationStats.RunEndingIsRun | src/components/MeditationStats.tsx:64-71 | The positions `RunEnding` counts form a run of one-day steps, and the step before it is not a one-day step. |
| MeditationStats.MaxRun | src/components/MeditationStats.tsx:60-76 | It is 0 for an empty list and between 1 and n otherwise, and at least every run ending among the first n positions. |
| MeditationStats.MaxRunAttained | src/components/MeditationStats.tsx:60-76 | Some position ends a run exactly as long as `MaxRun`, so the longest streak is a real run. |
| MeditationStats.LongestRunIsMaxRun | src/components/MeditationStats.tsx:60-76 | Any run of one-day steps anywhere in the list is at most `MaxRun` of the whole list. |
| MeditationStats.LongestStreak | src/components/MeditationStats.tsx:58-76 | The flush-on-gap loop computes exactly `MaxRun(dates, |dates|)`, the length of the longest run. |
| MeditationStats.GetStreakInfo | src/components/MeditationStats.tsx:38-78 | An empty list gives 0 and 0. The current streak is `CurrentRun` of the sorted dates and at most 365. The longest is `MaxRun` of the same dates, with 1 ≤ longest ≤ number of logs. |
| MeditationStats.DuplicateDayBreaksRun | src/components/MeditationStats.tsx:64-71 | With logs on t, t-1, t-1, t-2 and today t, the current streak is 3 but the longest streak is 2: the 0-day gap closes the run. |
| MeditationStats.Distinct | src/components/MeditationStats.tsx:40-41 | The latest-first day list without repeats: strictly descending, the same days, no longer. |
| MeditationStats.CurrentAtMostLongest | src/components/MeditationStats.tsx:45-76 | In a day list without repeats, the current streak never exceeds the longest streak. |
| MeditationStats.GetStreakInfoDistinct | src/components/MeditationStats.tsx:38-78 | With repeated days removed before the run scan, the current streak is unchanged and never exceeds the longest streak. |
| MeditationStats.MilestoneStep | src/components/MeditationStats.tsx:84-99 | A notice is shown exactly when the streak is one of 5, 7, 10, 15, 30 and differs from the last one shown; the streak is then recorded, and otherwise the record is kept. |
| MeditationStats.MilestoneShownOnce | src/components/MeditationStats.tsx:85-98 | Running the effect again with the same streak shows nothing. |
| MeditationStats.OnlyMilestonesAnnounced | src/components/MeditationStats.tsx:35 | A streak outside the five milestones never produces a notice and leaves the record alone. |
| MeditationStats.MilestoneMessage | src/components/MeditationStats.tsx:85-93 | Every milestone notice names the streak: the number read after its emoji and space is the streak length. |
| MeditationStats.MilestoneTracker.constructor | src/components/MeditationStats.tsx:34 | No milestone has been shown. |
| MeditationStats.MilestoneTracker.Observe | src/components/MeditationStats.tsx:84-100 | The notice shown and the new record are those of `MilestoneStep` on the old record. |
| MeditationStats.AchievementLevel | src/components/MeditationStats.tsx:171-177 | Master iff ≥ 100 sessions, Advanced iff 50..99, Intermediate iff 20..49, Beginner iff 10..19, Newcomer iff < 10. |
| MeditationStats.AchievementMonotone | src/components/MeditationStats.tsx:171-177 | More sessions never give a lower level. |
| MeditationStats.FormatDurationShort | src/components/MeditationStats.tsx:158-165 | The text ends in "m" exactly when the seconds are a multiple of 60. |
| MeditationStats.FormatDurationShortRoundTrip | src/components/MeditationStats.tsx:158-165 | The short form reads back as the same number of seconds. |
| MeditationStats.FormatDuration | src/components/MeditationStats.tsx:145-156 | From an hour up the text ends in "m". Between a minute and an hour with no leftover seconds it ends in a space, the trailing blank of the template. Otherwise it ends in "s". |
| MeditationStats.FormatDurationRoundTrip | src/components/MeditationStats.tsx:145-156 | Below an hour the long form reads back as the same number of seconds. |
| MeditationStats.FormatDurationDropsSeconds | src/components/MeditationStats.tsx:146-150 | From an hour up, the long form reads back as the seconds rounded down to a whole minute, and it is the same text as for that rounded value. |
| MeditationLogs.RoundDiv | src/hooks/useMeditationLogs.ts:182 | The nearest integer to a / b, halves rounded up. |
| MeditationLogs.RoundDivBetween | src/hooks/useMeditationLogs.ts:182 | A rounded mean of terms between lo and hi lies between lo and hi. |
| MeditationLogs.LongestDuration | src/hooks/useMeditationLogs.ts:183 | `Math.max` of the durations: at least every duration, and attained by one. |
| MeditationLogs.ShortestDuration | src/hooks/useMeditationLogs.ts:184 | `Math.min` of the durations: at most every duration, and attained by one. |
| MeditationLogs.CalculateStats | src/hooks/useMeditationLogs.ts:141-190 | An empty list gives all zeros. Sessions are the count and the total is the sum. The average is the total divided by the count, rounded half up. The week and month figures are the count and duration sum of the logs dated at most 7 and 30 days before `now`. shortest ≤ average ≤ longest, and both extremes are attained. Week ≤ month ≤ total, for counts and for durations. |
| MeditationLogs.LogsByDateRange | src/hooks/useMeditationLogs.ts:192-197 | A log is kept exactly when start ≤ its instant ≤ end, both ends included. The result is no longer than the list. |
| MeditationLogs.LogsByDateRangeKeepsOrder | src/hooks/useMeditationLogs.ts:192-197 | The range query distributes over concatenation, so the kept logs stay in their original order. |
| MeditationLogs.LogsByDateRangeSnoc | src/hooks/useMeditationLogs.ts:192-197 | Each log in turn is appended once when in range and skipped otherwise, so multiplicity is kept. |
| MeditationLogs.SliceEnd | src/hooks/useMeditationLogs.ts:200 | `slice(0, count)` never keeps more than the list holds. |
| MeditationLogs.RecentLogs | src/hooks/useMeditationLogs.ts:199-201 | A prefix of the list of length min(count, n), or n + count for a negative count; the count defaults to 5. |
| MeditationLogs.WithoutId | src/hooks/useMeditationLogs.ts:134 | A log remains exactly when it was there and has another id. |
| MeditationLogs.WithoutIdKeepsOrder | src/hooks/useMeditationLogs.ts:134 | Deleting from a concatenation deletes from each part, so the remaining logs keep their order. |
| MeditationLogs.InsertRowFor | src/hooks/useMeditationLogs.ts:82-94 | A valid date becomes a string that parses back to it. A string date passes unchanged; anything else becomes today's date. Missing music becomes []. User and duration are copied. |
| MeditationLogs.Fetched | src/hooks/useMeditationLogs.ts:40-72 | Signed out gives an empty list and no error. Rows returned while signed in become the list, and null rows give an empty list. A reported error gives its message, a thrown call gives "Failed to load meditation logs", each with an empty list. |
| MeditationLogs.LogStore.constructor | src/hooks/useMeditationLogs.ts:25-27 | Empty list, loading, no error. |
| MeditationLogs.LogStore.Fetch | src/hooks/useMeditationLogs.ts:40-72 | List and error become `Fetched(signedIn, q)`, and loading ends. |
| MeditationLogs.LogStore.Save | src/hooks/useMeditationLogs.ts:77-118 | Signed out: "Not authenticated" and nothing sent. The row sent is `InsertRowFor`. Success exactly when the insert returned rows: the first row is returned and the list refetched. Otherwise the error is returned and the state is untouched. |
| MeditationLogs.LogStore.Delete | src/hooks/useMeditationLogs.ts:120-139 | Signed out or a failed delete returns the error and changes nothing. A success leaves `WithoutId` of the old list. |
| Calendar.ParseFormatIsoDate | src/hooks/useMeditationLogs.ts:84 | A date printed as "yyyy-MM-dd" reads back as the same date. |
| Calendar.MonthLength | src/components/MeditationGoals.tsx:60-63 | The next month's first day is as many days after this month's first day as this month has. |
| Calendar.WeekDay | src/components/MeditationGoals.tsx:55 | `getDay()` of a day number is between 0 and 6; `WeekDayAnchors` ties it to the calendar. |
| Calendar.WeekDayStep | src/components/MeditationGoals.tsx:55 | The day after has the next weekday, and weekdays repeat every seven days. |
| Calendar.WeekDayAnchors | src/components/MeditationGoals.tsx:55-57 | 0001-01-01 and 2024-01-01 get weekday 1 (Monday) and 1970-01-01 gets 4 (Thursday), as the real calendar has them. |
| Calendar.FormatIsoDate | src/hooks/useMeditationLogs.ts:84 | "yyyy-MM-dd": at least ten characters, all digits apart from the two dashes before the month and day pairs. |
| Calendar.ParseIsoDate | src/hooks/useMeditationLogs.ts:84 | Whatever it reads is a valid calendar date; `ParseFormatIsoDate` gives the round trip. |
| MeditationGoals.DaysToMondayIsOffset | src/components/MeditationGoals.tsx:55-57 | Stepping back `daysToMonday` days lands on the start of the day's seven-day block, which is a Monday. |
| MeditationGoals.DaysToMonday | src/components/MeditationGoals.tsx:55-56 | For a `getDay()` value, a count from 0 to 6 such that that many days earlier is a Monday. |
| MeditationGoals.Window | src/components/MeditationGoals.tsx:49-63 | Today lies in [start, end). Daily: one day. Weekly: seven days from a Monday. Monthly: from the 1st, as many days as the month has. |
| MeditationGoals.InWindow | src/components/MeditationGoals.tsx:66-69 | The filter keeps a log exactly when its day lies in [start, end). |
| MeditationGoals.Minutes | src/components/MeditationGoals.tsx:71 | A log's minutes are its seconds / 60, rounded to the nearest whole number, halves up. |
| MeditationGoals.Progress | src/components/MeditationGoals.tsx:66-79 | Id, type and target are kept. The period is the window start. Current is the sum of rounded minutes over the window's logs. Completed iff current ≥ target. |
| MeditationGoals.Recompute | src/components/MeditationGoals.tsx:41-83 | Skipped when there are no logs; otherwise the same number of goals, each recomputed in place. |
| MeditationGoals.RecomputeIdempotent | src/components/MeditationGoals.tsx:44-80 | Recomputing twice is recomputing once. |
| MeditationGoals.DayWithinWeekAndMonth | src/components/MeditationGoals.tsx:49-71 | A daily goal never shows more minutes than a weekly or a monthly one. |
| MeditationGoals.CompletedByPeriodLogs | src/components/MeditationGoals.tsx:66-72 | A goal is completed exactly when the rounded minutes of its period's logs reach its target. |
| MeditationGoals.SummaryCounts | src/components/MeditationGoals.tsx:254-266 | The goals `filter(g => g.completed)` keeps (`IsCompleted`) plus those `filter(g => !g.completed)` keeps (`InProgress`) make up all the goals. |
| MeditationGoals.DeleteKeepsOrder | src/components/MeditationGoals.tsx:106-108 | Deleting from a concatenation deletes from each part, so the other goals keep their order. |
| MeditationGoals.GoalBoard.constructor | src/components/MeditationGoals.tsx:22-24 | No goals; the add form shows a daily goal of 10 and is closed. |
| MeditationGoals.GoalBoard.SetType | src/components/MeditationGoals.tsx:150 | Only the form's goal type changes. |
| MeditationGoals.GoalBoard.SetTarget | src/components/MeditationGoals.tsx:165 | The form's target becomes the number read, and 0 when `parseInt` gives NaN; nothing else changes. |
| MeditationGoals.GoalBoard.AddGoal | src/components/MeditationGoals.tsx:85-104 | A target ≤ 0 changes nothing and shows an info notice. Otherwise exactly one goal is appended, with current 0 and not completed, and the form is reset and closed. |
| MeditationGoals.GoalBoard.DeleteGoal | src/components/MeditationGoals.tsx:106-109 | Exactly the goals with that id are removed, the rest in order, and "Goal deleted" is shown. |
| MeditationGoals.GoalBoard.Refresh | src/components/MeditationGoals.tsx:41-83 | The goals become `Recompute` of the old goals; the form is untouched. |
| Text.Trim | src/components/ReflectionForm.tsx:46 | `trim()`: a slice of the input with no white space at either end, and only white space cut off. |
| Text.TrimIdempotent | src/components/ReflectionForm.tsx:46 | Trimming twice is trimming once. |
| Text.ToLower | src/hooks/useEmailValidation.ts:25 | `toLowerCase()`: the same length, each character case-folded. |
| Text.IndexOf | src/components/PositiveNotification.tsx:45 | The first position where the pattern occurs, or none iff it occurs nowhere. |
| Text.ReplaceFirst | src/hooks/useEmailValidation.ts:92 | `replace` with a string pattern: unchanged without an occurrence, else the first occurrence replaced. |
| Text.PadStart | src/components/MeditationTimer.tsx:11 | `padStart`: the width or the input length, whichever is larger, with the fill character in front of the input. |
| Text.SplitOn | src/hooks/useEmailValidation.ts:25 | `split` gives at least one part; `SplitJoin` gives the round trip with `Join`. |
| Text.SplitJoin | src/components/MeditationLog.tsx:140 | Joining parts without the separator and splitting again gives the parts back. |
| Text.Join | src/components/MeditationLog.tsx:140 | `join`: one part is itself, and the result starts with the first part. |
| Lists.Filter | src/components/ReflectionForm.tsx:53 | `filter`: no longer than the input; it keeps exactly the elements that pass. |
| Lists.FilterAppend | src/hooks/useMeditationLogs.ts:134 | Filtering distributes over concatenation, so the kept elements stay in order. |
| Sorting.SortDesc | src/components/WeeklySummary.tsx:51 | The comparator sort `b - a`: non-increasing by key and a permutation of the input. |
| ReflectionForm.RemoveCutsOut | src/components/ReflectionForm.tsx:52-54 | In a duplicate-free list, removing a tag cuts out exactly its position. |
| ReflectionForm.RemoveAbsent | src/components/ReflectionForm.tsx:52-54 | Removing a tag that is not there changes nothing. |
| ReflectionForm.SubmitNotice | src/components/ReflectionForm.tsx:69-82 | A save shows the "Reflection saved" success notice; a failure shows the "Failed to save reflection" info notice. |
| ReflectionForm.Submitted | src/components/ReflectionForm.tsx:60-67 | The entry carries the current mood and tags, and its three texts are exactly `Trim` of the form's texts, so they are trimmed and keep what the user wrote. |
| ReflectionForm.SubmittedDate | src/components/ReflectionForm.tsx:61 | The entry's date string reads back as the day it was submitted. |
| ReflectionForm.Form.constructor | src/components/ReflectionForm.tsx:36-43 | Mood 3, empty texts, no tags, not loading, and a hidden notice. |
| ReflectionForm.Form.ChooseMood | src/components/ReflectionForm.tsx:108 | A mood button sets the mood to its value from 1 to 5 and changes nothing else. |
| ReflectionForm.Form.EditWell | src/components/ReflectionForm.tsx:125 | Typing changes only the first text. |
| ReflectionForm.Form.EditShort | src/components/ReflectionForm.tsx:139 | Typing changes only the second text. |
| ReflectionForm.Form.EditAgain | src/components/ReflectionForm.tsx:153 | Typing changes only the third text. |
| ReflectionForm.Form.EditTag | src/components/ReflectionForm.tsx:167 | Typing changes only the tag input. |
| ReflectionForm.Form.AddTag | src/components/ReflectionForm.tsx:45-50 | A non-empty trimmed input that is not yet a tag is appended, and the input is cleared. Otherwise tags and input are unchanged. The tags stay duplicate-free, trimmed and non-empty. |
| ReflectionForm.Form.RemoveTag | src/components/ReflectionForm.tsx:52-54 | Exactly that tag is removed; the others stay in order and the invariant is kept. |
| ReflectionForm.Form.BeginSubmit | src/components/ReflectionForm.tsx:56-67 | Loading starts, and the entry handed to the save is `Submitted` of the current fields. |
| ReflectionForm.Form.FinishSubmit | src/components/ReflectionForm.tsx:69-85 | After a save the form resets: mood 3, texts and tags cleared. After a failure the fields are kept. The notice is shown, and loading ends either way. |
| WeeklySummary.FirstOn | src/components/WeeklySummary.tsx:33-35 | The index `find` returns: an entry on that day with none before it, or none when no entry is on the day. |
| WeeklySummary.MoodOn | src/components/WeeklySummary.tsx:32-37 | No mood iff no entry falls on the day; otherwise the mood of the first such entry. |
| WeeklySummary.WeeklyData | src/components/WeeklySummary.tsx:18-39 | Exactly 7 days, today - 6 .. today, oldest first, each with `MoodOn` of its day. |
| WeeklySummary.LastSeven | src/components/WeeklySummary.tsx:47 | `slice(-7)`: the whole list up to 7 entries, else its last 7 positions. |
| WeeklySummary.CountPositive | src/components/WeeklySummary.tsx:48 | A tag is counted at least once exactly when it occurs. |
| WeeklySummary.KeysMember | src/components/WeeklySummary.tsx:46-49 | The table's keys are exactly the tags that occur. |
| WeeklySummary.KeysDistinct | src/components/WeeklySummary.tsx:46-49 | No key appears twice. |
| WeeklySummary.TallyRows | src/components/WeeklySummary.tsx:46-49 | Every row is an occurring tag with its occurrence count (≥ 1), and every occurring tag has a row. |
| WeeklySummary.TallySnoc | src/components/WeeklySummary.tsx:48 | Counting one more tag bumps its row, or appends a row with count 1. |
| WeeklySummary.CountTags | src/components/WeeklySummary.tsx:46-49 | The nested loop builds exactly the count table of the tags of the last seven entries. |
| WeeklySummary.TopTags | src/components/WeeklySummary.tsx:50-52 | At most 3 rows, in non-increasing count order, taken from the table without repeating a row (a sub-multiset of it). |
| WeeklySummary.TopTagsSelect | src/components/WeeklySummary.tsx:50-52 | The top rows are rows of the table, and no row left out has a larger count than the third one kept. |
| WeeklySummary.TopTagsCounts | src/components/WeeklySummary.tsx:47-52 | Each top tag's count is ≥ 1 and is its occurrence count. Any tag left out occurs at most as often as the third top tag. |
| WeeklySummary.TallyTagsDistinct | src/components/WeeklySummary.tsx:46-49 | No two rows of the table have the same tag. |
| WeeklySummary.TopTagsDistinct | src/components/WeeklySummary.tsx:50-52 | The top rows name different tags. |
| WeeklySummary.Tally | src/components/WeeklySummary.tsx:46-49 | One row per distinct tag; `TallyRows` gives each row its count. |
| WeeklySummary.Render | src/components/WeeklySummary.tsx:41-53 | Nothing for an empty list; otherwise the 7-day grid and the top tags of the counted entries. |
| EmailValidation.FormatOkIsRegex | src/hooks/useEmailValidation.ts:15-16 | The regex `^[^\s@]+@[^\s@]+\.[^\s@]+$` matches exactly when there is no white space, exactly one `@`, a non-empty local part, and a dot inside the domain that is not its first or last character. |
| EmailValidation.FormatOkMatches | src/hooks/useEmailValidation.ts:15-16 | A well-formed address is local part, `@`, name, `.`, suffix, each a non-empty run without white space or `@`. |
| EmailValidation.MatchesFormatOk | src/hooks/useEmailValidation.ts:15-16 | Such a composition is well formed and splits at `@` into its local part and domain. |
| EmailValidation.FormatParts | src/hooks/useEmailValidation.ts:25 | A well-formed address, lower-cased, is its lower-cased local part, `@` and domain. |
| EmailValidation.FormatOk | src/hooks/useEmailValidation.ts:15-16 | An address that passes splits at `@` into exactly two parts, neither holding an `@`, around a single `@`. |
| EmailValidation.Domain | src/hooks/useEmailValidation.ts:25 | Lower case, at least three characters, as long as the part after the `@`. |
| EmailValidation.LocalPart | src/hooks/useEmailValidation.ts:117 | Lower case, non-empty, as long as the part before the `@`. |
| EmailValidation.TypoFrom | src/hooks/useEmailValidation.ts:87-95 | As written: a suggestion names a row with a misspelling occurring anywhere in the domain, and no earlier row has one; no suggestion iff no row has one. |
| EmailValidation.TypoSuggestion | src/hooks/useEmailValidation.ts:87-95 | The whole loop from the first row: the first matching row in table order, or none iff none matches. |
| EmailValidation.TypoFlagsCorrectDomain | src/hooks/useEmailValidation.ts:79-95 | As written, every correctly spelt popular domain gets a suggestion, because it contains one of its own listed misspellings. |
| EmailValidation.ExactTypoFrom | src/hooks/useEmailValidation.ts:87-95 | Corrected: a row applies only when the domain is exactly one of its misspellings. |
| EmailValidation.ExactAcceptsCorrectDomain | src/hooks/useEmailValidation.ts:78-95 | Corrected: a correctly spelt popular domain gets no suggestion. |
| EmailValidation.ExactFlagsListed | src/hooks/useEmailValidation.ts:78-95 | Corrected: every listed misspelling still gets a suggestion. |
| EmailValidation.MxRecord | src/hooks/useEmailValidation.ts:133-160 | A lookup that answered with no mail servers fails with "Domain does not have email servers configured"; a failed lookup or one with answers passes with no message. |
| EmailValidation.AdvancedWith | src/hooks/useEmailValidation.ts:56-131 | Valid iff deliverable. A disposable domain gives the disposable error, then a suggestion gives "Did you mean …?", then a lookup without mail servers gives the no-servers error. Valid iff none of these applies. A valid role address carries the role warning, any other valid address no message. |
| EmailValidation.Advanced | src/hooks/useEmailValidation.ts:56-131 | As written: valid iff the domain is not disposable, no misspelling of any row occurs in it, and the lookup does not report missing mail servers. |
| EmailValidation.AdvancedCorrected | src/hooks/useEmailValidation.ts:56-131 | Corrected: valid iff the domain is not disposable, is none of the listed misspellings, and the lookup does not report missing mail servers. |
| EmailValidation.ValidateEmail | src/hooks/useEmailValidation.ts:13-54 | Valid iff deliverable. No regex match: the format error. A blocked domain: the blocked error. Else a crash lets the address through, and otherwise the corrected advanced check decides. |
| EmailValidation.ValidateEmailAsWritten | src/hooks/useEmailValidation.ts:13-54 | As written: valid iff deliverable. No regex match gives the format error, a blocked domain the blocked error, a thrown advanced check an accepted address, and anything else `Advanced`. |
| EmailValidation.PopularDomainAddress | src/hooks/useEmailValidation.ts:87-95 | Any well-formed lower-case address at a correctly spelt popular domain is refused as written with "Did you mean …", and passes the corrected chain iff the lookup passes. |
| EmailValidation.UserAtGmail | src/hooks/useEmailValidation.ts:87-95 | "user@gmail.com" is refused as written, and valid under the corrected chain exactly when the lookup does not report missing mail servers. |
| MeditationTimer.FormatTime | src/components/MeditationTimer.tsx:8-12 | The minutes are followed by a colon and exactly two second digits. |
| MeditationTimer.FormatTimeRoundTrip | src/components/MeditationTimer.tsx:8-12 | The clock face reads back as exactly the seconds left. |
| MeditationTimer.FormatTimeWidth | src/components/MeditationTimer.tsx:6-12 | Within five minutes the face is one minute digit, a colon and two digits. |
| MeditationTimer.Timer.constructor | src/components/MeditationTimer.tsx:15-17 | 300 seconds, not running, no interval, no sound played. |
| MeditationTimer.Timer.Effect | src/components/MeditationTimer.tsx:41-57 | Seconds never change. An interval is scheduled iff running with time left. At zero with the ref set, running ends and the sound plays once. |
| MeditationTimer.Timer.Settle | src/components/MeditationTimer.tsx:41-57 | The effect plus the re-run caused by its own stop. A running timer at zero with the ref set ends stopped with the sound played twice. |
| MeditationTimer.Timer.Start | src/components/MeditationTimer.tsx:59 | With time left the timer runs; at zero it stays stopped. Seconds unchanged, no sound, invariant kept. |
| MeditationTimer.Timer.Pause | src/components/MeditationTimer.tsx:60 | Stopped, seconds unchanged, no sound, invariant kept. |
| MeditationTimer.Timer.Reset | src/components/MeditationTimer.tsx:61-64 | From any state: 300 seconds, not running, no sound. |
| MeditationTimer.Timer.Tick | src/components/MeditationTimer.tsx:43-53 | No interval: nothing. Otherwise seconds drop by exactly one and stay in [0, 300]. At zero the timer stops and the sound has played twice; above zero it keeps running. |
| MusicTracks.Played | src/components/MusicTracks.tsx:19-36 | The track becomes current. It plays unless it was current and playing, in which case it pauses. Mute is kept. |
| MusicTracks.Muted | src/components/MusicTracks.tsx:38-43 | Only the mute flag flips. |
| MusicTracks.PlayerStaysGood | src/components/MusicTracks.tsx:6-36 | Start and every button keep the current track in the 4-entry catalog, and only a current track plays. |
| MusicTracks.MuteTwice | src/components/MusicTracks.tsx:38-43 | Two mute toggles restore the player. |
| MusicTracks.PlayTwice | src/components/MusicTracks.tsx:19-36 | Pressing the same track twice toggles it, and a playing track comes back to the same state. |
| MusicTracks.TrackPlayer.constructor | src/components/MusicTracks.tsx:14-16 | No current track, nothing playing, not muted. |
| MusicTracks.TrackPlayer.PlayTrack | src/components/MusicTracks.tsx:19-36 | The new state is `Played` of the old one, and the invariant is kept. |
| MusicTracks.TrackPlayer.ToggleMute | src/components/MusicTracks.tsx:38-43 | The new state is `Muted` of the old one. |
| Notifications.Shown | src/hooks/usePositiveNotification.ts:17-23 | Visible, with exactly the given message and type. |
| Notifications.Hidden | src/hooks/usePositiveNotification.ts:25-30 | Not visible; message and type unchanged. |
| Notifications.HideIdempotent | src/hooks/usePositiveNotification.ts:25-30 | Hiding twice is hiding once. |
| Notifications.Notifier.constructor | src/hooks/usePositiveNotification.ts:11-15 | Empty message, hidden, success. |
| Notifications.Notifier.Show | src/hooks/usePositiveNotification.ts:17-23 | The record becomes `Shown(message, type)`, the type defaulting to success. |
| Notifications.Notifier.Hide | src/hooks/usePositiveNotification.ts:25-30 | The record becomes `Hidden` of the old one. |
| Notifications.FirstKey | src/components/PositiveNotification.tsx:44-46 | The first key in table order whose lower case occurs in the lower-cased message; none iff no key matches. |
| Notifications.PositiveMessage | src/components/PositiveNotification.tsx:43-48 | Always one of the six template texts. The first matching key wins, and with no match the text is the default one. |
| Notifications.RendersAfter | src/components/PositiveNotification.tsx:28-41 | A shown notice is always drawn; a hidden one only while the fade-out flag `show` lasts. |
| Notifications.FailedSaveGetsDefault | src/components/PositiveNotification.tsx:47 | "Failed to save reflection. Please try again." matches no key and gets the default text. |
| Notifications.SavedReflectionText | src/components/PositiveNotification.tsx:15 | "Reflection saved", in any capitalisation, gets the reflection text. |
| MeditationLogView.FormatDuration | src/components/MeditationLog.tsx:34-41 | The text reads back as the same seconds, with no hour split. It ends in "m" exactly when the seconds are a multiple of 60. |
| MeditationLogView.AverageMinutes | src/components/MeditationLog.tsx:105 | The average is total / n / 60, rounded to the nearest whole minute, halves up. |
| MeditationLogView.AverageBetween | src/components/MeditationLog.tsx:105 | When every log lasts between lo and hi minutes, so does the average. |
| MeditationLogView.MusicCell | src/components/MeditationLog.tsx:140 | A dash for no music; a single track is shown as itself. |
| MeditationLogView.MusicCellTracks | src/components/MeditationLog.tsx:140 | When no name holds a comma, cutting the cell at commas gives back the first name and each other name after its space. |
| MeditationLogView.Render | src/components/MeditationLog.tsx:43-156 | Loading first, then a non-empty error, then the empty message, then the table. The table has the session count, formatted total, rounded average, and one row per log, with exactly the row at `deleting` marked. |
| MeditationLogView.DeleteNotice | src/components/MeditationLog.tsx:26-28 | A success notice on a delete; an info notice carrying the error message on a failure. |
| MeditationLogView.DeleteMarker.constructor | src/components/MeditationLog.tsx:19-20 | No row marked, hidden notice. |
| MeditationLogView.DeleteMarker.BeginDelete | src/components/MeditationLog.tsx:22-23 | The row index is marked as deleting. |
| MeditationLogView.DeleteMarker.FinishDelete | src/components/MeditationLog.tsx:24-31 | The outcome's notice is shown, and the marker is cleared whether the delete succeeded or failed. |
| AuthGuard.Checked | src/hooks/useAuthGuard.ts:14-40 | Loading ends and the invariant holds. Authenticated iff the session holds a confirmed user, which is then stored. A sign-out is asked for iff the user is unconfirmed. An error leaves nobody signed in. |
| AuthGuard.Reacted | src/hooks/useAuthGuard.ts:45-66 | Loading ends and the invariant is preserved. A confirmed sign-in stores the user. An unconfirmed one clears the state and signs out. A sign-out clears the state. Any other event keeps user and flag. |
| AuthGuard.ReactedIdempotent | src/hooks/useAuthGuard.ts:50-65 | A second event of the same kind changes nothing more. |
| AuthGuard.UnconfirmedStaysOut | src/hooks/useAuthGuard.ts:50-62 | The sign-out that an unconfirmed sign-in asks for leaves the same signed-out state. |
| AuthGuard.GoodThroughEvents | src/hooks/useAuthGuard.ts:14-67 | From the initial check on, through any events, authenticated iff a user is stored, and a stored user is confirmed. |
| AuthGuard.Hook.constructor | src/hooks/useAuthGuard.ts:7-12 | No user, loading, not authenticated, mounted. |
| AuthGuard.Hook.CheckAuth | src/hooks/useAuthGuard.ts:14-40 | While mounted, the state becomes `Checked` and a requested sign-out is counted. Once unmounted nothing changes. The invariant is preserved. |
| AuthGuard.Hook.OnAuthEvent | src/hooks/useAuthGuard.ts:44-66 | While mounted, the state becomes `Reacted` and a requested sign-out is counted. Once unmounted nothing changes. The invariant is preserved. |
| AuthGuard.Hook.Unmount | src/hooks/useAuthGuard.ts:69-72 | `mounted` becomes false and nothing else changes. |

## Left out

- Database and auth-service calls (select, insert, delete, `getSession`, `signOut`, the auth subscription) are not modelled. Their results are inputs.
  - The auth guard counts the sign-outs it asks for, and assumes they return.
  - A failing `signOut` inside the event handler is not modelled.
- Audio is not modelled: neither the Web Audio oscillator of the timer nor the `<audio>` element of the player. The timer counts how often the completion sound is played.
- The DNS-over-HTTPS fetch is an input (`Some(hasAnswers)` or `None` for a failure). The unused Hunter.io stub is not part of this model.
- Real time is not modelled: `setInterval`, `setTimeout`, the notification's 4-second fade and when React effects run.
  - Timer ticks and effect runs are method calls.
  - The notification's `show` flag is an input to `Notifications.Renders`.
- JavaScript `Date` semantics are abstracted to day numbers: time zones, DST, `toDateString`/`toLocaleDateString` and the UTC-versus-local `toISOString` date.
  - The `Math.ceil` of a millisecond gap becomes a difference of day numbers.
  - The log table shows a row's day number rather than "MMM d, yyyy".
  - A goal's `period` is stored as a day number rather than an ISO string.
- Percentages and progress-bar widths are floating-point display values, and are not modelled.
- Goal persistence in `localStorage` (JSON load and save) is not modelled.
- Case folding covers ASCII letters only; `toLowerCase` of other scripts is not modelled.
- The `isValidating` flag of the e-mail hook is presentation state and is not modelled.
- An `Err` in `DeleteNotice` carries the error's message, so the `error?.message || error` fallback for non-Error throws is not modelled. Log music that is `null` is modelled as the empty list.
- Tags that name an `Object.prototype` member are counted like any other tag, which the plain-object table does not do. Inherited methods such as `constructor`, `toString`, `toLocaleString`, `valueOf`, `hasOwnProperty`, `isPrototypeOf`, `propertyIsEnumerable` and the `__defineGetter__`/`__lookupGetter__` family start from the inherited function, so their count becomes a string and the sort comparator gives NaN. A `__proto__` tag is never recorded.
- The `required` attribute of the three text areas is not modelled. The browser refuses to submit while one of them is empty, and the model builds the entry anyway.
- `Object.entries` key order in the tag table is modelled as first-occurrence order. JavaScript lists integer-like keys ("7", "2024") first, in ascending numeric order, then the others in insertion order, so with tied counts the three tags shown can differ from the model's. The tie order among equal counts in `TopTags` is that of a stable descending sort over that order.
- Labels, icons, weekday names and mood labels are presentation only, and are not modelled.

## Findings

| source | as written | input that shows it | evidently intended | confidence | as-written member | corrected member |
|---|---|---|---|---|---|---|
| src/components/MeditationStats.tsx:64-71 | Repeated days stay in the sorted date list. Two logs on the same day give a 0-day gap, which closes the open run. | Logs on days t, t-1, t-1, t-2, with today t: current streak 3, longest streak 2. | Repeated days count once, so the longest streak is at least the current streak. | not executed | MeditationStats.DuplicateDayBreaksRun | MeditationStats.GetStreakInfoDistinct |
| src/hooks/useEmailValidation.ts:87-95 | A misspelling matches when it occurs anywhere in the domain. "gmail.co" occurs in "gmail.com", and likewise for the other five popular domains. | "user@gmail.com" is refused with "Did you mean user@gmail.com?" | A misspelling matches only when it is the whole domain, so correct popular domains pass. | not executed | EmailValidation.UserAtGmail | EmailValidation.ValidateEmail |
