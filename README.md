# HabitFlow core in Dafny

This project models the completion-and-streak core of HabitFlow, a habit tracker. Each habit keeps a sparse
map from day to "done". The model covers the logic built on those maps:

- **Streak walk.** It starts today and steps back one day at a time while the day is done.
- **Trailing windows and percentages.** These are the 7-day and 30-day windows, the per-day and overall
  completion percentages, the calendar's day figures and colour bands, and the lifetime completion rate of
  the suggestions panel.
- **Badge tiers and the rewards panel's resolver.** Each habit walks down from its streak to the first title
  not yet claimed, and the result is sorted by recorded streak.
- **Client-side stores.**
  - Habits: add, update, delete, toggle with streak recompute, and load.
  - User: profile, rewards, settings and streak statistics.
  - Progress: the three setters.
- **Server habit handlers.** These cover list, create, update, delete and toggle over a store of documents
  keyed by id. They include the 400, 404 and 403 answers and the schema's validation and defaults.
- **Figures on the streak panel, progress page and month calendar.**
- **Add-habit form.** This covers the weekday toggle and the submit handler.

Days are integer day numbers (day 0 is 1 January 1970). A `YYYY-MM-DD` key is represented by its day number.
Today, the current time and new ids are parameters. `Math.round(c / t * 100)` on non-negative integers is
computed exactly as round half up, that is `(200c + t) div 2t` (`Rounding`).

One `Streak.CalculateCurrentStreak` stands for the three identical copies of the streak walk. They are in
`helpers.js`, `habitsSlice.js` and `habitController.js`.

Modules, one per file:

| module | models |
|---|---|
| `Wrappers`, `Seqs`, `Text` | optional values, `Array.prototype.filter`, `String.prototype.trim` |
| `Rounding`, `CivilDays` | `Math.round` of a ratio; the local `Date` constructor's month arithmetic |
| `HabitRecord`, `Streak` | the client habit record and completion maps; the streak walk |
| `Progress`, `Quotes`, `Rewards` | the helpers module: windows, calculators, daily quote, badge tiers |
| `HabitsSlice`, `UserSlice`, `ProgressSlice` | the three client stores, as classes whose methods update fields |
| `HabitSchema`, `HabitController` | the server's habit schema and handlers over a document store |
| `RewardBadge`, `HabitCalendar`, `StreakCounter`, `TrackProgress`, `AISuggestions`, `AddHabitForm` | the components' logic |

The model follows the code where the design description and the code disagree:
- **Two toggles of an absent key.** The description says two toggles of one entry restore the map. The code
  writes `!undefined`, then `!true`. The entry comes back as an explicit `false`, so only whether each day is
  done, and the streak, are restored (`HabitsSlice.ToggleTwiceRestoresTruthiness`, `HabitRecord.FlipTwice`).
- **Two habits earning the same tier.** The description says a second habit that earns a claimed tier adds
  no entry. The code keeps walking down and records the next free title at that loop value
  (`RewardBadge.TwoWeekWarriors`).
- **Streak overwritten by update.** The description says `streak` only ever equals the walk over the map.
  Both update paths merge arbitrary fields, `streak` included. So the model ties the streak to the walk
  right after a toggle, not as a global invariant.

## Model

| member | source | states |
|---|---|---|
| Seqs.Filter | habitflow-frontend/src/store/slices/habitsSlice.js:40 | the result holds exactly the elements that pass the test, each as often as in the input |
| Seqs.FilterIdempotent | habitflow-frontend/src/components/AISuggestions.jsx:80 | filtering again with the same test removes nothing more |
| Seqs.FilterKeepsAllIff | habitflow-frontend/src/pages/TrackProgress.jsx:38 | the filter keeps every element exactly when every element passes |
| Text.Trim | habitflow-backend/models/Habit.js:10-14 | the trimmed name is the piece of the input left after cutting only white space from both ends, and it has no white space at either end |
| Text.TrimEmptyIff | habitflow-frontend/src/components/AddHabitForm.jsx:23 | the trimmed name is empty exactly when the name is all white space |
| Text.TrimFixesIff | habitflow-backend/models/Habit.js:10-14 | trimming leaves a string unchanged exactly when it has no white space at either end |
| Text.TrimIdempotent | habitflow-backend/models/Habit.js:10-14 | trimming a trimmed name changes nothing |
| Rounding.QuotientBounds | habitflow-frontend/src/utils/helpers.js:67 | the quotient used for rounding is floor division: `d*q <= n < d*(q+1)` |
| Rounding.RoundHalfUpBounds | habitflow-frontend/src/utils/helpers.js:67 | `Math.round(n / d)` is the integer r with `2dr <= 2n + d < 2d(r+1)`, the nearest integer with halves rounded up |
| Rounding.Percent | habitflow-frontend/src/utils/helpers.js:67 | a zero total gives 0 (the guard against division by zero); a part of the total gives at most 100 |
| Rounding.PercentBounds | habitflow-frontend/src/utils/helpers.js:67 | over a positive total the percentage is 100·completed/total rounded half up |
| Rounding.PercentAtMostHundred | habitflow-frontend/src/utils/helpers.js:67 | a rounded percentage of a part never exceeds 100 |
| Rounding.RoundedMeanAtMostHundred | habitflow-frontend/src/pages/TrackProgress.jsx:39-41 | the rounded mean of values in [0, 100] is at most 100 |
| CivilDays.DaysInMonthIsMonthLength | habitflow-frontend/src/components/HabitCalendar.jsx:16-18 | day 0 of the next month gives the Gregorian month length, 28..31, and February has 29 days exactly in leap years |
| CivilDays.DateFromParts | habitflow-frontend/src/components/HabitCalendar.jsx:16-17 | for a month in 0..11 the date of that month; month 12 is January of the next year and month -1 December of the previous one |
| CivilDays.DateFromPartsCarries | habitflow-frontend/src/components/HabitCalendar.jsx:69-73 | twelve months more is the same month of the next year, for any month argument |
| CivilDays.NextDay | habitflow-frontend/src/components/HabitCalendar.jsx:17 | `new Date(y, m, d + 1)` is the day after `new Date(y, m, d)` for any day argument, 0 included |
| CivilDays.Weekday | habitflow-frontend/src/components/HabitCalendar.jsx:19 | `getDay` is in 0..6 |
| HabitRecord.OrDefault | habitflow-frontend/src/store/slices/habitsSlice.js:20-22 | `value \|\| fallback`: a missing or empty string is replaced by the fallback, any other is kept |
| HabitRecord.Flip | habitflow-frontend/src/store/slices/habitsSlice.js:51-52 | the toggled day becomes present and the negation of whether it was done; every other day is untouched |
| HabitRecord.FlipTwice | habitflow-frontend/src/store/slices/habitsSlice.js:45-52 | two flips of a day restore whether every day is done; the day is then present |
| Streak.StreakAt | habitflow-frontend/src/utils/helpers.js:118-126 | the reference walk: 0 exactly when the day itself is not done, and the day just before the counted run is never done |
| Streak.CalculateCurrentStreak | habitflow-frontend/src/utils/helpers.js:113-129 | the loop returns the run length: 0 when today is not done, every counted day is done, and the day before the run is not |
| Streak.StreakIsRunLength | habitflow-frontend/src/utils/helpers.js:118-126 | k done days ending today with the day before them not done give exactly k |
| Streak.StreakRun | habitflow-frontend/src/utils/helpers.js:118-126 | conversely, a streak of k means those k days are done and the one before is not |
| Streak.StreakBoundedByKeys | habitflow-frontend/src/utils/helpers.js:118-126 | the walk ends: it counts no more days than the map has keys up to today |
| Streak.StreakDependsOnTruthiness | habitflow-frontend/src/utils/helpers.js:120 | two maps that agree on which days are done have the same streak |
| Streak.FlipTwiceKeepsStreak | habitflow-backend/controllers/habitController.js:114-119 | two flips of one day leave the streak as it was |
| Progress.DayName | habitflow-frontend/src/utils/helpers.js:43-46 | a day's name is one of the seven short weekday names |
| Progress.TrailingDates | habitflow-frontend/src/utils/helpers.js:20-24 | the push loop yields n consecutive days, oldest first, the last one today |
| Progress.GetWeekDates | habitflow-frontend/src/utils/helpers.js:16-27 | exactly 7 consecutive days, oldest first, the last one today |
| Progress.GetMonthDates | habitflow-frontend/src/utils/helpers.js:29-41 | exactly 30 consecutive days, oldest first, the last one today |
| Progress.CountDoneOn | habitflow-frontend/src/utils/helpers.js:53-60 | the `completed++` loop counts the habits done that day, never more than the number of habits |
| Progress.CountDoneIsFilterLength | habitflow-frontend/src/components/StreakCounter.jsx:11-13 | the `forEach` counter and the `filter(...).length` count the same habits |
| Progress.WeekEntryFor | habitflow-frontend/src/utils/helpers.js:52-68 | an entry carries its date and that date's weekday name, total = number of habits, completed = the number of habits done that day (≤ total), and percentage = `Percent(completed, total)`: 0 with no habits, at most 100 |
| Progress.MonthEntryFor | habitflow-frontend/src/utils/helpers.js:75-90 | the same figures for a monthly entry, which has no day name |
| Progress.EntryCountIsFilter | habitflow-frontend/src/utils/helpers.js:56-62 | an entry's `completed` is the length of the list of habits whose map has that day truthy, in the weekly and the monthly series alike |
| Progress.EntryPercentRounds | habitflow-frontend/src/utils/helpers.js:67 | with at least one habit, an entry's percentage is 100·completed/total rounded half up (`2t·p ≤ 200c + t < 2t·(p+1)`), the same in both series |
| Progress.WeeklyProgress | habitflow-frontend/src/utils/helpers.js:49-70 | 7 entries dated today-6 .. today in order, entry k being the weekly entry of day today-6+k, each with total = habits, completed ≤ total, percentage ≤ 100 |
| Progress.MonthlyProgress | habitflow-frontend/src/utils/helpers.js:72-92 | 30 entries dated today-29 .. today in order, entry k being the monthly entry of day today-29+k, with the same per-entry bounds |
| Progress.CalculateWeeklyProgress | habitflow-frontend/src/utils/helpers.js:49-70 | the loop over the week's dates builds exactly the weekly series |
| Progress.CalculateMonthlyProgress | habitflow-frontend/src/utils/helpers.js:72-92 | the loop over the month's dates builds exactly the monthly series |
| Progress.CellsDone | habitflow-frontend/src/utils/helpers.js:101-107 | the done cells of the habits × dates grid are at most its size |
| Progress.OverallCompletion | habitflow-frontend/src/utils/helpers.js:94-110 | 0 with no habits, never above 100 |
| Progress.OverallCompletionRounds | habitflow-frontend/src/utils/helpers.js:98-109 | with habits, it is 100·doneCells/(30·habits) rounded half up |
| Progress.CalculateOverallCompletion | habitflow-frontend/src/utils/helpers.js:94-110 | the nested `forEach` loops compute exactly that ratio |
| Quotes.CharCodeSum | habitflow-frontend/src/utils/helpers.js:197 | the seed is at least the code of each character |
| Quotes.CharCodeSumAppend | habitflow-frontend/src/utils/helpers.js:197 | the seed of a concatenation is the sum of the seeds of its parts |
| Quotes.DailyQuoteIndex | habitflow-frontend/src/utils/helpers.js:198 | the index is in bounds and congruent to the seed modulo 15 |
| Quotes.DailyQuote | habitflow-frontend/src/utils/helpers.js:195-200 | the quote of the day is one of the fifteen quotes |
| Rewards.TopTier | habitflow-frontend/src/utils/helpers.js:235-246 | the tier reached is the largest threshold at or below the streak, and there is none exactly below 3 |
| Rewards.RewardForStreak | habitflow-frontend/src/utils/helpers.js:235-246 | `null` exactly below 3, otherwise the badge of the highest threshold reached (45 gives the 30-day badge) |
| Rewards.TierTitlesDistinct | habitflow-frontend/src/utils/helpers.js:236-244 | the nine badge titles are pairwise distinct |
| Rewards.TopTierMonotone | habitflow-frontend/src/utils/helpers.js:235-246 | a longer streak never reaches a lower tier |
| Rewards.Title | habitflow-frontend/src/utils/helpers.js:235-246 | every title a streak of 3 or more earns is one of the nine |
| Rewards.TitleSet | habitflow-frontend/src/utils/helpers.js:236-244 | there are exactly nine different titles |
| HabitsSlice.NewHabit | habitflow-frontend/src/store/slices/habitsSlice.js:15-25 | a new habit has the given id and time, streak 0, the payload's fields, no days, time '' and colour 'emerald' by default |
| HabitsSlice.Merge | habitflow-frontend/src/store/slices/habitsSlice.js:34 | every property present in the payload wins and every other one is kept |
| HabitsSlice.FirstIndex | habitflow-frontend/src/store/slices/habitsSlice.js:32 | `findIndex`: the first habit with the id, or -1 when none has it |
| HabitsSlice.Toggled | habitflow-frontend/src/store/slices/habitsSlice.js:45-52 | the habit's map is created if missing and only the date's entry flips; other habits' maps are untouched |
| HabitsSlice.WithStreak | habitflow-frontend/src/store/slices/habitsSlice.js:55-58 | only the first habit with the id gets the streak; the list is otherwise unchanged |
| HabitsSlice.HabitsState.constructor | habitflow-frontend/src/store/slices/habitsSlice.js:4-7 | the store starts with no habits and no maps |
| HabitsSlice.HabitsState.AddHabit | habitflow-frontend/src/store/slices/habitsSlice.js:14-28 | appends exactly the new habit and gives its id an empty map; everything else is kept |
| HabitsSlice.HabitsState.UpdateHabit | habitflow-frontend/src/store/slices/habitsSlice.js:31-36 | merges the payload into the first habit with its id only; a no-op when there is none; the count and the maps are unchanged |
| HabitsSlice.HabitsState.DeleteHabit | habitflow-frontend/src/store/slices/habitsSlice.js:39-42 | removes every habit with the id and its map, and keeps every other habit in order and every other map |
| HabitsSlice.HabitsState.ToggleCompletion | habitflow-frontend/src/store/slices/habitsSlice.js:45-59 | flips only that entry and stores in the first habit with the id the streak walked over its updated map |
| HabitsSlice.HabitsState.LoadHabits | habitflow-frontend/src/store/slices/habitsSlice.js:62-65 | replaces both parts, each defaulting to empty when the payload lacks it |
| HabitsSlice.ToggleTwiceRestoresTruthiness | habitflow-frontend/src/store/slices/habitsSlice.js:45-52 | two toggles restore whether every entry is done; an absent entry comes back as an explicit false; other maps are untouched |
| HabitsSlice.ToggleTwiceRestoresStreak | habitflow-frontend/src/store/slices/habitsSlice.js:54-58 | two toggles give back the streak of the original map |
| HabitsSlice.ToggleTwice | habitflow-frontend/src/store/slices/habitsSlice.js:45-58 | two toggles through the store restore the entries, and the habit ends with the walk over its original map |
| HabitsSlice.FirstIndexWithStreak | habitflow-frontend/src/store/slices/habitsSlice.js:55-58 | writing a streak does not move the first habit with the id, and a later write replaces an earlier one |
| HabitSchema.FirstUnknownDay | habitflow-backend/models/Habit.js:33-36 | no day is reported exactly when all scheduled days are weekday names; a reported day is listed and unknown |
| HabitSchema.Validate | habitflow-backend/models/Habit.js:5-36 | validation passes exactly for valid documents, and each error names a rule the document breaks |
| HabitSchema.Build | habitflow-backend/models/Habit.js:10-55 | the built document has the trimmed name, the given paths, and for each absent path the schema default (icon '✨', no days, time '', colour 'emerald', streak 0, empty map) |
| HabitSchema.BuildValidIff | habitflow-backend/models/Habit.js:5-36 | a built document is valid exactly when it has an owner, a name that is not all white space, a listed category and weekday names only |
| HabitController.CreateInput | habitflow-backend/controllers/habitController.js:27-37 | the create input belongs to the caller, takes the `\|\|` defaults, and has streak 0 and an empty map |
| HabitController.Patched | habitflow-backend/controllers/habitController.js:61-65 | every field in the body replaces the stored one (the name trimmed); id and creation time are kept |
| HabitController.EmptyPatchIsIdentity | habitflow-backend/controllers/habitController.js:61-65 | a body with no fields leaves the document unchanged |
| HabitController.Authorize | habitflow-backend/controllers/habitController.js:52-59 | 404 exactly for an unknown id, 403 exactly for another user's habit, and through exactly for the owner |
| HabitController.InsertByCreatedDesc | habitflow-backend/controllers/habitController.js:9 | inserting keeps the list newest first and adds exactly the one document |
| HabitController.InsertKeepsDistinct | habitflow-backend/controllers/habitController.js:9 | inserting a document with a new id keeps the ids distinct |
| HabitController.HabitStore.GetHabits | habitflow-backend/controllers/habitController.js:7-14 | the result is exactly the caller's stored habits, each once, newest first |
| HabitController.HabitStore.CreateHabit | habitflow-backend/controllers/habitController.js:19-43 | 400 and no write without name or category; otherwise the built document is stored under its id (201), or 500 and no write when the id is taken or validation fails; a created habit is the caller's, with streak 0, an empty map and the defaults |
| HabitController.HabitStore.UpdateHabit | habitflow-backend/controllers/habitController.js:48-71 | 404/403 with no write; otherwise the merged document is stored and returned, or 500 with no write when it is invalid; the store stays valid |
| HabitController.HabitStore.DeleteHabit | habitflow-backend/controllers/habitController.js:76-94 | 404/403 with no write; otherwise exactly that document is removed |
| HabitController.HabitStore.ToggleCompletion | habitflow-backend/controllers/habitController.js:99-126 | 404/403 with no write; otherwise the date's entry flips (absent becomes true) and the stored streak is the walk over the updated map |
| HabitController.ToggleTwice | habitflow-backend/controllers/habitController.js:114-121 | two toggles by the owner restore whether every day is done and the streak, and leave every other document alone |
| RewardBadge.EntryAt | habitflow-frontend/src/components/RewardBadge.jsx:14-16 | an entry records the loop value, not the tier threshold, with that value's title |
| RewardBadge.FirstUnclaimed | habitflow-frontend/src/components/RewardBadge.jsx:13-20 | the inner loop stops at the largest value ≥ 3 whose title is unclaimed, or finds none when every title on the way is claimed |
| RewardBadge.Collect | habitflow-frontend/src/components/RewardBadge.jsx:12-21 | at most one entry per habit, titles pairwise distinct, each entry at a value ≥ 3 |
| RewardBadge.CollectStep | habitflow-frontend/src/components/RewardBadge.jsx:12-21 | a further habit adds nothing below 3 or when every title is claimed, and otherwise exactly the entry at the first free value |
| RewardBadge.CollectEmptyIff | habitflow-frontend/src/components/RewardBadge.jsx:12-25 | there are no badges exactly when no habit has a streak of 3 or more |
| RewardBadge.CollectAtMostNine | habitflow-frontend/src/components/RewardBadge.jsx:12-21 | never more entries than habits, nor more than nine |
| RewardBadge.TwoWeekWarriors | habitflow-frontend/src/components/RewardBadge.jsx:12-21 | two habits at 7 give "Week Warrior" at 7, then "Getting Started" at 6 |
| RewardBadge.InsertDesc | habitflow-frontend/src/components/RewardBadge.jsx:23 | inserting keeps the order by recorded streak, highest first, and adds exactly the one entry |
| RewardBadge.SortByStreakDesc | habitflow-frontend/src/components/RewardBadge.jsx:23 | the sort yields a permutation in non-increasing order of recorded streak |
| RewardBadge.ResolveRewards | habitflow-frontend/src/components/RewardBadge.jsx:9-23 | the nested loop with `break`, then the sort, yields the collected badges sorted highest first |
| UserSlice.MergeProfile | habitflow-frontend/src/store/slices/userSlice.js:25 | fields in the payload win; every other profile field is kept |
| UserSlice.MergeSettings | habitflow-frontend/src/store/slices/userSlice.js:42 | fields in the payload win; every other setting is kept |
| UserSlice.MergeIdempotent | habitflow-frontend/src/store/slices/userSlice.js:24-43 | an empty payload changes nothing, and applying the same payload twice is applying it once |
| UserSlice.WithStreakStats | habitflow-frontend/src/store/slices/userSlice.js:46-51 | the total is taken as given; the longest becomes the larger of itself and the total |
| UserSlice.LongestStreakIsRunningMax | habitflow-frontend/src/store/slices/userSlice.js:46-51 | over any run of updates the longest never decreases, is at least each total, and is one of them or its start value |
| UserSlice.UserState.constructor | habitflow-frontend/src/store/slices/userSlice.js:4-17 | the profile starts empty with both streaks 0, no rewards, light theme with notifications on |
| UserSlice.UserState.UpdateProfile | habitflow-frontend/src/store/slices/userSlice.js:24-26 | merges into the profile only |
| UserSlice.UserState.AddReward | habitflow-frontend/src/store/slices/userSlice.js:29-38 | appends exactly one reward and keeps the earlier ones and everything else |
| UserSlice.UserState.UpdateSettings | habitflow-frontend/src/store/slices/userSlice.js:41-43 | merges into the settings only |
| UserSlice.UserState.UpdateStreakStats | habitflow-frontend/src/store/slices/userSlice.js:46-51 | sets the total, and the longest streak never decreases |
| UserSlice.UserState.LoadUserData | habitflow-frontend/src/store/slices/userSlice.js:54-58 | profile and settings are kept when absent; rewards fall back to none |
| ProgressSlice.ProgressState.constructor | habitflow-frontend/src/store/slices/progressSlice.js:4-8 | empty weekly and monthly data and an overall completion of 0 |
| ProgressSlice.ProgressState.SetWeeklyData | habitflow-frontend/src/store/slices/progressSlice.js:15-17 | replaces the weekly data only |
| ProgressSlice.ProgressState.SetMonthlyData | habitflow-frontend/src/store/slices/progressSlice.js:20-22 | replaces the monthly data only |
| ProgressSlice.ProgressState.SetOverallCompletion | habitflow-frontend/src/store/slices/progressSlice.js:25-27 | replaces the overall completion only |
| HabitCalendar.GetDaysInMonth | habitflow-frontend/src/components/HabitCalendar.jsx:13-22 | the month has its Gregorian length, 28..31, 29 in February exactly in leap years, and its first weekday is in 0..6 |
| HabitCalendar.CompletionForDay | habitflow-frontend/src/components/HabitCalendar.jsx:27-40 | 0 with no habits, otherwise `Percent` of the number of habits done that day over the number of habits, never above 100 |
| HabitCalendar.CompletionForDayIsWeekEntry | habitflow-frontend/src/components/HabitCalendar.jsx:27-40 | the calendar's figure for a day is that day's percentage in the weekly series |
| HabitCalendar.GetCompletionForDay | habitflow-frontend/src/components/HabitCalendar.jsx:27-40 | the counting loop yields that figure |
| HabitCalendar.ShadeNamedInverts | habitflow-frontend/src/components/HabitCalendar.jsx:43-49 | each shade's class names can be read back to the shade |
| HabitCalendar.ShadeClassesDistinct | habitflow-frontend/src/components/HabitCalendar.jsx:43-49 | two shades have the same class names exactly when they are the same shade |
| HabitCalendar.Band | habitflow-frontend/src/components/HabitCalendar.jsx:43-49 | the legend's five ranges: 0; below 30; 30..59; 60..99; 100 and above |
| HabitCalendar.ColorClass | habitflow-frontend/src/components/HabitCalendar.jsx:43-49 | a figure gets the legend shade of the band it falls in, never the shade of days to come |
| HabitCalendar.ColorClassIsBand | habitflow-frontend/src/components/HabitCalendar.jsx:43-49 | every figure gets its band's shade, two figures share a shade exactly when they share a band, and the band rises with the figure |
| HabitCalendar.PreviousMonth | habitflow-frontend/src/components/HabitCalendar.jsx:68-70 | the month before, wrapping from January to December of the previous year |
| HabitCalendar.NextMonth | habitflow-frontend/src/components/HabitCalendar.jsx:72-74 | the month after, wrapping from December to January of the next year |
| HabitCalendar.NavigationInverse | habitflow-frontend/src/components/HabitCalendar.jsx:68-74 | the two buttons undo each other |
| HabitCalendar.NextMonthStartsAfterThisOne | habitflow-frontend/src/components/HabitCalendar.jsx:72-74 | the next month's first day lies exactly this month's length after this month's first |
| HabitCalendar.IsToday | habitflow-frontend/src/components/HabitCalendar.jsx:52-57 | a day that is today has today's day number |
| HabitCalendar.IsFuture | habitflow-frontend/src/components/HabitCalendar.jsx:60-65 | a day still to come is never today |
| HabitCalendar.FutureStaysFuture | habitflow-frontend/src/components/HabitCalendar.jsx:60-65 | once a day of the month is still to come, so is every later day |
| HabitCalendar.DayCellShows | habitflow-frontend/src/components/HabitCalendar.jsx:89-109 | a day cell shows its day and figure; today is drawn in its band's shade; a day is greyed out exactly when it is still to come; a figure is printed exactly on a past or present day with a non-zero figure |
| HabitCalendar.RenderDay | habitflow-frontend/src/components/HabitCalendar.jsx:90-108 | the loop body builds that day's cell |
| HabitCalendar.BuildGrid | habitflow-frontend/src/components/HabitCalendar.jsx:81-110 | the grid is `startingDayOfWeek` blanks, then the cells of days 1..`daysInMonth` in order |
| HabitCalendar.PushBlanks | habitflow-frontend/src/components/HabitCalendar.jsx:84-86 | the first loop pushes exactly n blanks |
| HabitCalendar.PushDays | habitflow-frontend/src/components/HabitCalendar.jsx:89-110 | the second loop appends the cells of days 1..n in order |
| HabitCalendar.MaxOf | habitflow-frontend/src/components/HabitCalendar.jsx:206 | `Math.max` returns an element at least as large as every element |
| HabitCalendar.TotalStreaks | habitflow-frontend/src/components/HabitCalendar.jsx:200 | the sum is 0 with no habits, a habit's streak for one habit, and non-negative when no streak is negative |
| HabitCalendar.TotalStreaksAppend | habitflow-frontend/src/components/HabitCalendar.jsx:200 | the sum over two lists joined is the sum of their sums, so with the one-habit case it is the sum of the streaks |
| HabitCalendar.LongestStreak | habitflow-frontend/src/components/HabitCalendar.jsx:206 | at least 0 and at least every streak, and equal to one of the streaks unless it is 0 |
| HabitCalendar.LongestStreakAgrees | habitflow-frontend/src/components/HabitCalendar.jsx:206 | the calendar's "Longest Streak" equals the streak panel's figure |
| HabitCalendar.LongestAtMostTotal | habitflow-frontend/src/components/HabitCalendar.jsx:200-206 | with no negative streaks, 0 ≤ longest ≤ "Total Streaks" |
| HabitCalendar.TotalAtLeastEach | habitflow-frontend/src/components/HabitCalendar.jsx:200 | with no negative streaks, the sum is non-negative and at least each streak |
| StreakCounter.CompletedToday | habitflow-frontend/src/components/StreakCounter.jsx:11-13 | the habits done today, never more than the habits, the same count as the weekly series uses |
| StreakCounter.MaxFromBounds | habitflow-frontend/src/components/StreakCounter.jsx:15-17 | the `reduce` is at least its start and every streak, and is one of them or its start |
| StreakCounter.LongestStreak | habitflow-frontend/src/components/StreakCounter.jsx:15-17 | never below 0 or any streak, one of the streaks unless 0, and one of them whenever some streak is ≥ 0 |
| StreakCounter.DaysTracking | habitflow-frontend/src/components/StreakCounter.jsx:19-21 | 0 with no habits, otherwise the whole days since the first habit's creation rounded down, and ≥ 0 when it is not in the future |
| TrackProgress.ActiveStreaks | habitflow-frontend/src/pages/TrackProgress.jsx:37-38 | at most the number of habits, and equal to it exactly when every streak is positive |
| TrackProgress.SumPercentages | habitflow-frontend/src/pages/TrackProgress.jsx:40 | with every percentage ≤ 100 the sum is at most 100 per entry |
| TrackProgress.AvgCompletion | habitflow-frontend/src/pages/TrackProgress.jsx:39-41 | 0 for an empty series; at most 100 when no day is above 100 |
| TrackProgress.AvgCompletionRounds | habitflow-frontend/src/pages/TrackProgress.jsx:39-41 | a non-empty series averages to its mean percentage rounded half up |
| TrackProgress.AvgOfWeeklyProgressInRange | habitflow-frontend/src/pages/TrackProgress.jsx:39-41 | the average over the page's own weekly series is at most 100 |
| TrackProgress.InsightShown | habitflow-frontend/src/pages/TrackProgress.jsx:103-117 | each insight line is shown exactly under its condition |
| TrackProgress.AverageInsightsShown | habitflow-frontend/src/pages/TrackProgress.jsx:103-111 | the three average lines show at ≥ 80, 50..79 and 1..49 |
| TrackProgress.StreakInsightsShown | habitflow-frontend/src/pages/TrackProgress.jsx:112-117 | "all active" shows exactly when active = total > 0, and the 30-day line exactly when some streak is ≥ 30 |
| TrackProgress.InsightConditions | habitflow-frontend/src/pages/TrackProgress.jsx:103-117 | exactly one average line shows for a positive average and none otherwise; the streak lines as above |
| AISuggestions.TrueCount | habitflow-frontend/src/components/AISuggestions.jsx:26 | the true entries of a map, never more than its keys |
| AISuggestions.Possible | habitflow-frontend/src/components/AISuggestions.jsx:27 | the key count or 1: at least 1 and at least the true entries |
| AISuggestions.Totals | habitflow-frontend/src/components/AISuggestions.jsx:24-28 | numerator ≤ denominator, and the denominator is at least the number of habits |
| AISuggestions.SumTotals | habitflow-frontend/src/components/AISuggestions.jsx:21-28 | the `forEach` accumulates exactly those totals |
| AISuggestions.CalculateCompletionRate | habitflow-frontend/src/components/AISuggestions.jsx:18-31 | 0 with no habits, the rounded ratio of the totals otherwise, always within [0, 100] |
| AISuggestions.WithoutName | habitflow-frontend/src/components/AISuggestions.jsx:80 | every suggestion of that name is removed; every other one is kept, as often as before |
| AISuggestions.WithoutNameIdempotent | habitflow-frontend/src/components/AISuggestions.jsx:80 | removing the same name again removes nothing more |
| AISuggestions.HandleAddSuggestion | habitflow-frontend/src/components/AISuggestions.jsx:70-81 | adds the suggestion as a habit with no schedule and removes its name from the list |
| AISuggestions.DifficultyColor | habitflow-frontend/src/components/AISuggestions.jsx:83-90 | the badge is one of the four; green exactly for "easy", yellow exactly for "medium", red exactly for "hard" |
| AISuggestions.DifficultyColorsDistinguish | habitflow-frontend/src/components/AISuggestions.jsx:83-90 | two difficulties get the same badge exactly when they are equal or neither is easy, medium or hard |
| AddHabitForm.WithDayToggled | habitflow-frontend/src/components/AddHabitForm.jsx:62-69 | an absent day is appended; a present day is removed wherever it occurs, the other days keeping their counts; other fields unchanged |
| AddHabitForm.ToggleDayTwice | habitflow-frontend/src/components/AddHabitForm.jsx:62-69 | two toggles of a day restore which days are chosen, and the other fields |
| AddHabitForm.Form.constructor | habitflow-frontend/src/components/AddHabitForm.jsx:10-17 | the form starts closed, with the default fields and no alerts |
| AddHabitForm.Form.ToggleDay | habitflow-frontend/src/components/AddHabitForm.jsx:62-69 | updates the chosen days only |
| AddHabitForm.Form.HandleSubmit | habitflow-frontend/src/components/AddHabitForm.jsx:21-60 | as written: a blank name does nothing; a failed request alerts; a created habit is added, the form reset and closed, and the failure alert is still shown |
| AddHabitForm.Form.HandleSubmitIntended | habitflow-frontend/src/components/AddHabitForm.jsx:21-60 | as intended: the same, but a created habit shows no alert |
| AddHabitForm.SuccessfulCreateStillAlerts | habitflow-frontend/src/components/AddHabitForm.jsx:41-58 | a create the server accepted ends with the failure alert as written, and with none as intended |

## Left out

- **The clock, time zones and daylight saving.** Today, the current time and the displayed month are parameters. The code builds date keys with local `setDate` but reads them with UTC `toISOString`, and that mix is not modelled. A key is its day number.
- **`goToToday` in the calendar.** It only reads the clock.
- **`formatDate` and `getTodayString`.** They are clock and locale formatting.
- **Ids from `Date.now()`.** The client stores take ids as parameters, and `AddHabit` does not check for duplicates, as in the source.
- **Floating point.** Every `Math.round(c / t * 100)` is exact round half up on integers. A floating-point quotient that lands just below a half is not modelled.
- **`getDayName`.** It is modelled as the weekday's short English name, without the locale machinery.
- **I/O and the network.**
  - The fetch in the form's submit is its outcome: the created habit, or none on failure.
  - `localStorage`, `console.error`, the Gemini requests in `fetchSuggestions` and the reply handling are not part of this model.
  - The loading and error states of the suggestions panel are not modelled.
- **`props.onHabitAdded()`.** Only the exception it throws is modelled (see Findings).
- **Rendering.**
  - JSX markup and the badge title split are not modelled.
  - The calendar's class strings are kept as a `Shade` with its class names.
  - The `ring` class of today's cell is the `isToday` flag.
- **Mongo persistence.**
  - `findById`, `save` and `findByIdAndUpdate` are a sequential map from id to document. Atomicity and concurrent requests are not modelled.
  - Malformed ids (cast errors answered 500) are not modelled.
  - `updatedAt` is not modelled.
  - `completions.toObject()` is taken to give the map's entries as a plain object, as it does with the `flattenMaps` option.
- **HabitController.HabitStore.ToggleCompletion, HabitController.ToggleTwice:** they assume that reading of `toObject()` (habitController.js:114-119). With the library's default, `toObject()` on a `Map` path returns a native `Map`: the handler's `completions[date] = ...` then sets a property the reassignment at :116 drops, and `calculateStreak` reads that property alone. The model states the toggle the handler evidently means, not that behaviour.
- **HabitController.HabitStore.UpdateHabit:** it validates the whole merged document. Mongo's update validators check only the updated paths, so a stored document that is already invalid blocks updates in the model. Every stored document is valid (`Valid`), so this does not arise from the modelled operations.
- **HabitController.HabitStore.GetHabits:** the order among habits with equal `createdAt` is left open, as Mongo leaves it.
- **Update bodies.** They carry the schema's fields only. Unknown keys, `_id`, `createdAt` and values of the wrong type are not modelled.
- **Non-string request values.** JavaScript truthiness of a non-string `name` or `category` is not modelled; they are optional strings.
- **The cached `streak`.** No global invariant ties a habit's `streak` to the walk, because both update paths may overwrite it. It is tied to the walk right after a toggle.
- **A client habit's `createdAt`.** It is a millisecond timestamp, where the client stores an ISO string that `daysTracking` parses.

## Findings

| source | as written | input that shows it | evidently intended | confidence | as-written member | corrected member |
|---|---|---|---|---|---|---|
| habitflow-frontend/src/components/AddHabitForm.jsx:53-58 | after a successful create the handler reads `props`, which the component never declares, so a ReferenceError lands in the catch and the failure alert is shown | name "Read" and a request the server accepts: the habit is added and the form reset, yet "Failed to create habit. Please try again." appears | a successful create shows no alert | not executed | AddHabitForm.SuccessfulCreateStillAlerts | AddHabitForm.Form.HandleSubmitIntended |
