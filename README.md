# fourk-habit-hub, modelled in Dafny

fourk-habit-hub is a household-habit tracker. Users tick off the subtasks of
four household tasks each day. These are bathing (*kuoga*), laundry
(*kufua*), cleaning (*kusafisha*) and cooking (*kupika*). Each tick is saved
as a points-carrying log in a per-day row. A separate finance section
records income, expenses and savings, and reports them per day, week, month
or year.

This project models the logic under the user interface:

- **The task-log store** (`TaskStore`). It is one row per user and date,
  holding the ordered logs and their total. The model covers saving,
  removing, reading one day or all days, and the completion query.
- **The task catalogue** (`Tasks`). It holds the four tasks, their subtasks
  and points, and the `taskId-subtaskId` completion key.
- **The logging page** (`LogTasks`). It covers:
  - the ticked-key set and the points shown;
  - the title;
  - the day's load, which loops over every subtask;
  - the single toggle;
  - "complete all", which loops over the task's subtasks and saves the
    missing ones.
- **The task card** (`TaskCard`). It covers the display name per language,
  the count of ticked subtasks and the arguments its checkboxes pass.
- **The interface language** (`Language`). It covers the three translation
  tables, `t` with its fall-back to the key, and the start-up choice of
  language.
- **The dashboard and history summaries** (`Dashboard`, `History`,
  `DayTotals`). They cover:
  - today's points, the seven-row week total and the averages;
  - the total of all time and the days tracked;
  - the task names and points on each day's card.
- **Both finance stores** (`Finance`, `Periods`, `LocalFinance`,
  `HostedFinance`). The browser-storage variant appends records to a
  per-user list. The hosted variant is one table of rows with a timestamp
  fall-back. They share the daily, weekly, monthly and yearly windows and
  the per-type totals.

Days are day numbers. Day 0 is 1970-01-01, and the calendar fields come
from the proleptic Gregorian calendar (`Dates`). A JavaScript `setDate(k)`
that runs past the month therefore rolls into the next month or year, as it
does in the browser.

Nothing external is modelled: the hosted database, browser storage, the
clock and the id generator. The rules they follow are modelled instead:

- The stores are classes whose fields are the tables.
- The clock and the id generator are parameters (`now`, `id`, `createdAt`).
- A backend failure is a parameter of type `Backend`:
  - `Healthy`: the call succeeds.
  - `FetchFails`: the read fails with an error other than "no rows".
  - `WriteFails`: the read succeeds but the write fails.

Where the project's own description and its code disagree, the model
follows the code:

- `removeTaskLog` without a subtask id removes *every* log of the task,
  subtask logs included (`src/lib/storage.ts:57-61`). It does not remove only
  the log without a subtask.
- `getTaskLogsForDate` is imported by the logging page
  (`src/pages/LogTasks.tsx:12`) but is not defined in `src/lib/storage.ts`. It is
  modelled as the logs of the date's row, or none without a row.

## Model

| member | source | states |
|---|---|---|
| Tasks.TotalPointsAppend | src/lib/storage.ts:23 | The points of two log lists, one after the other, add up |
| Tasks.MakeRow | src/lib/storage.ts:22-23 | A row built from logs has those logs and their points sum as its total |
| Tasks.CompletionKey | src/pages/LogTasks.tsx:71 | The ticked-set key `taskId-subtaskId`; CompletionKeyInjective and CompletionKeyNotBare state when keys differ |
| Tasks.CompletionKeyInjective | src/pages/LogTasks.tsx:111 | For task ids without '-', `taskId-subtaskId` keys are equal exactly when both ids are |
| Tasks.ShorterTaskIdKeyDiffers | src/pages/LogTasks.tsx:111 | A key built on a shorter task id differs from one built on a longer id without '-' |
| Tasks.CompletionKeyNotBare | src/pages/LogTasks.tsx:71 | A subtask key never equals a bare task id without '-' |
| Tasks.KuogaPoints | src/types/tasks.ts:43-58 | Bathing is worth 30, which is the sum of its subtasks' points |
| Tasks.KufuaPoints | src/types/tasks.ts:59-75 | Laundry is worth 20, which is the sum of its subtasks' points |
| Tasks.KusafishaPoints | src/types/tasks.ts:76-93 | Cleaning is worth 25, which is the sum of its subtasks' points |
| Tasks.KupikaPoints | src/types/tasks.ts:94-109 | Cooking is worth 25, which is the sum of its subtasks' points |
| Tasks.KuogaIds | src/types/tasks.ts:43-58 | No id of bathing contains '-', and every subtask point value is positive |
| Tasks.KuogaSubtaskIdsDistinct | src/types/tasks.ts:51-57 | Bathing's subtask ids are pairwise distinct |
| Tasks.Catalogue | src/types/tasks.ts:42-110 | The four tasks with their subtasks, names and points; CatalogueWellFormed, CatalogueTaskIdsDistinct and CatalogueTotal state its properties |
| Tasks.CatalogueWellFormed | src/types/tasks.ts:42-110 | Every task is well formed, the task ids are distinct and the four tasks are worth 100 together |
| Tasks.CatalogueTaskIdsDistinct | src/types/tasks.ts:42-110 | The four task ids are pairwise distinct |
| Tasks.CatalogueTotal | src/types/tasks.ts:42-110 | The task points add up to 100 |
| TaskStore.Saved | src/lib/storage.ts:22-42 | A save appends the log at the end of its date's logs (creating the row), keeps every other date and keeps each row's total equal to its logs' points |
| TaskStore.RemovalMatches | src/lib/storage.ts:57-61 | The removal rule: with a truthy subtask id, a log of that task and subtask; otherwise any log of the task |
| TaskStore.Kept | src/lib/storage.ts:57-61 | The logs the removal rule does not match, in order; KeptMembers, KeptAppend and KeptNothingMatches state it |
| TaskStore.KeptMembers | src/lib/storage.ts:57-61 | The filter keeps exactly the logs the removal rule does not match, and never adds any |
| TaskStore.KeptAppend | src/lib/storage.ts:57-61 | The filter keeps order: filtering two lists one after the other is filtering each |
| TaskStore.KeptNothingMatches | src/lib/storage.ts:57-61 | When no log matches, the filter keeps the list unchanged |
| TaskStore.Removed | src/lib/storage.ts:57-69 | A removal filters only that date's logs and recomputes its total; the other dates and the set of dates are unchanged |
| TaskStore.CompletionMatches | src/lib/storage.ts:116-120 | The completion rule: with a truthy subtask id, a log of that task and subtask; otherwise a log of the task without a truthy subtask id |
| TaskStore.AnyCompletes | src/lib/storage.ts:116-120 | The completion query holds exactly when some log of the day matches the completion rule |
| TaskStore.SaveThenCompleted | src/lib/storage.ts:104-120 | After a save, that log's task or subtask is reported completed |
| TaskStore.RemoveThenNotCompleted | src/lib/storage.ts:45-72 | After a removal, the removed task or subtask is no longer reported completed |
| TaskStore.RemoveTaskClearsSubtasks | src/lib/storage.ts:57-61 | Removing without a subtask id also clears every subtask of that task |
| TaskStore.SubtaskLogDoesNotCompleteTask | src/lib/storage.ts:116-120 | Saving a subtask log does not change whether the whole task counts as completed |
| TaskStore.SaveTwiceStoresTwice | src/lib/storage.ts:22 | Saves are not deduplicated: the same log saved twice is stored twice |
| TaskStore.SaveThenRemoveRestoresLogs | src/lib/storage.ts:45-72 | Removing right after a save restores the date's logs when nothing else there matched the removal |
| TaskStore.RowsByDateDesc | src/lib/storage.ts:91-95 | The user's rows, each a stored row, in strictly descending date order |
| TaskStore.RowsByDateDescComplete | src/lib/storage.ts:91-95 | Every stored row of the user is listed, each once |
| TaskStore.ProgressStore.SaveTaskLog | src/lib/storage.ts:6-43 | Without a user, or on a failed read or write, nothing changes; otherwise the user's rows become `Saved` of them |
| TaskStore.ProgressStore.RemoveTaskLog | src/lib/storage.ts:45-72 | Without a user, on a failed read, for a date without a row, or on a failed write, nothing changes; otherwise the rows become `Removed` of them |
| TaskStore.ProgressStore.GetDailyProgress | src/lib/storage.ts:74-86 | A row exactly when there is a user, the read succeeds and the date has a row; its total is the sum of its logs |
| TaskStore.ProgressStore.GetAllDailyProgress | src/lib/storage.ts:88-102 | Nothing without a user or on a failed read; otherwise every row of the user, each once, latest date first |
| TaskStore.ProgressStore.IsTaskCompleted | src/lib/storage.ts:104-121 | True exactly when there is a user, the read succeeds and some log of the day matches the completion rule |
| TaskStore.ProgressStore.GetTaskLogsForDate | src/pages/LogTasks.tsx:28 | The date's row's logs when the user has a row for the date; no logs without a user or without a row |
| DayOrder.MaxOf | src/lib/storage.ts:95 | The latest of a non-empty set of dates is in the set and no date in it is later |
| DayOrder.DatesDesc | src/lib/storage.ts:95 | The dates of a set, strictly descending |
| DayOrder.DatesDescComplete | src/lib/storage.ts:95 | Every date of the set is listed, each once |
| LogTasks.ToggleKey | src/pages/LogTasks.tsx:71 | The key a toggle flips: `taskId-subtaskId` with a truthy subtask id, the bare task id otherwise |
| LogTasks.Toggled | src/pages/LogTasks.tsx:74-92 | A toggle flips the membership of its key and leaves every other key as it was |
| LogTasks.ToggleTwice | src/pages/LogTasks.tsx:74-92 | Toggling the same key twice restores the set |
| LogTasks.CardTogglesItsOwnKey | src/components/TaskCard.tsx:80-112 | The simple box toggles the bare task id and a detailed box its subtask's key, with points that pass the handler's guard |
| LogTasks.ToggleAgreesWithStore | src/pages/LogTasks.tsx:68-99 | After a toggle reaches the store, the store reports the key completed exactly when the page has it ticked |
| LogTasks.MissingLogs | src/pages/LogTasks.tsx:110-127 | "Complete all" saves at most one log per subtask, all for the day and task |
| LogTasks.MissingLogsAppend | src/pages/LogTasks.tsx:110-127 | The logs for two runs of subtasks are those of each, in order |
| LogTasks.SubtaskKeysMembers | src/pages/LogTasks.tsx:110-124 | The keys "complete all" ticks are exactly the task's subtask keys |
| LogTasks.OneSavePerMissingSubtask | src/pages/LogTasks.tsx:110-127 | One save per subtask not yet ticked: saves plus ticked subtasks make up all subtasks |
| LogTasks.MissingPointsBound | src/pages/LogTasks.tsx:125 | The points added are between 0 and the sum of the subtasks' points |
| LogTasks.MissingFromNothing | src/pages/LogTasks.tsx:110-127 | With nothing ticked, every subtask is saved and all their points are added |
| LogTasks.CompleteCategoryPoints | src/pages/LogTasks.tsx:105-126 | For a catalogue task the points added never exceed the task's points, and equal them when nothing was ticked |
| LogTasks.CompleteCategoryIdempotent | src/pages/LogTasks.tsx:129-139 | With every subtask ticked, "complete all" saves nothing |
| LogTasks.CompleteCategoryTicksAll | src/pages/LogTasks.tsx:124-131 | After "complete all" every subtask counts as ticked |
| LogTasks.SavedAllSnoc | src/pages/LogTasks.tsx:115-130 | Saving one more log after a run of saves is saving the longer run |
| LogTasks.SavedAllAppends | src/pages/LogTasks.tsx:115-130 | A run of saves for one date appends them, in order, to that date's logs |
| LogTasks.SavedAllKeepsOtherDates | src/pages/LogTasks.tsx:115-130 | A run of saves for one date leaves the logs of every other date as they were |
| LogTasks.DoneKeys | src/pages/LogTasks.tsx:56-61 | The keys collected on load for every subtask the store reports done; DoneKeysMembers and DoneKeysMeans state which |
| LogTasks.DoneSubKeysMembers | src/pages/LogTasks.tsx:57-60 | A subtask key is collected exactly when the store reports that subtask done |
| LogTasks.DoneKeysMembers | src/pages/LogTasks.tsx:56-61 | The collected keys are those of the subtasks of the listed tasks that the store reports done |
| LogTasks.DoneKeysMeans | src/pages/LogTasks.tsx:56-62 | For task ids without '-', a subtask's key is in the loaded set exactly when the store reports it done |
| LogTasks.LongDate | src/pages/LogTasks.tsx:42 | `EEEE, MMMM d` opens with the first two letters of the weekday's name, which no title "Today" shares |
| LogTasks.NoWeekdayLooksLikeToday | src/pages/LogTasks.tsx:39-43 | No weekday name starts like "Today" |
| LogTasks.TaskTitle | src/pages/LogTasks.tsx:32-44 | "Today" exactly when the selected day is today, otherwise the long date |
| LogTasks.TitleOfAWednesday | src/pages/LogTasks.tsx:42 | 2024-03-13, seen on another day, is titled "Wednesday, March 13" |
| LogTasks.CompleteAllLabelAsWritten | src/pages/LogTasks.tsx:220 | As written: "Complete All " followed by `t(task.id)`; CompleteAllLabelShowsRawId states what that shows |
| LogTasks.CompleteAllLabelShowsRawId | src/pages/LogTasks.tsx:220 | As written, the button shows each catalogue task's raw id, not its card name |
| LogTasks.CompleteAllLabel | src/pages/LogTasks.tsx:220 | Corrected: the button shows the table's string under `category.<task id>` |
| LogTasks.CompleteAllLabelNamesTheTask | src/pages/LogTasks.tsx:220 | Corrected, the button names every catalogue task as its card does, in every language |
| LogTasks.SaveMissingSubtasks | src/pages/LogTasks.tsx:105-127 | The loop saves exactly the missing logs in subtask order, adds their points and ticks every subtask key |
| LogTasks.LogTasksPage.constructor | src/pages/LogTasks.tsx:20-22 | A new page is on today's date with nothing ticked and no points |
| LogTasks.LogTasksPage.CalculatePoints | src/pages/LogTasks.tsx:26-30 | 0 without a user or a row; otherwise the day's stored total |
| LogTasks.LogTasksPage.FetchData | src/pages/LogTasks.tsx:46-66 | With a user: the points are recomputed and the ticked set is every subtask key the store reports done |
| LogTasks.LogTasksPage.HandleToggleTask | src/pages/LogTasks.tsx:68-99 | No user or no points: nothing changes. Otherwise one key flips, the store removes or saves accordingly and the points are recomputed |
| LogTasks.LogTasksPage.HandleCompleteCategory | src/pages/LogTasks.tsx:102-140 | Saves the missing logs and returns their points. When any was saved, every subtask is ticked and the points recomputed; otherwise the page is unchanged |
| TaskCard.DisplayName | src/components/TaskCard.tsx:33-37 | Swahili name in Swahili, English name in English; in the bilingual mode `nameSw (nameEn)`: the Swahili name, then the characters " (", the English name and a closing ')' |
| TaskCard.DisplayNameSplits | src/components/TaskCard.tsx:35 | The bilingual name determines both names (for Swahili names of one length) |
| TaskCard.IsMainTaskCompleted | src/components/TaskCard.tsx:39 | A task is shown done exactly when its bare id is in the ticked set; SubtaskKeyLeavesMainTask states that subtask keys never tick it |
| TaskCard.SubtaskKeyLeavesMainTask | src/components/TaskCard.tsx:39 | Ticking a subtask key never makes the whole task look completed |
| TaskCard.CountCompleted | src/components/TaskCard.tsx:40-42 | The number of subtasks whose key is ticked (the size of TickedIndices), at most the number of subtasks |
| TaskCard.CompletedSubtasks | src/components/TaskCard.tsx:40-42 | The number of the task's subtasks whose key is ticked (the size of TickedIndices), between 0 and the number of subtasks |
| TaskCard.TickedIndices | src/components/TaskCard.tsx:40-42 | The positions of the subtasks whose `taskId-subtaskId` key is in the ticked set; the reference the counts are stated against |
| TaskCard.TickedSnocSet | src/components/TaskCard.tsx:40-42 | One more subtask at the end adds its own position to the ticked positions exactly when its key is ticked, and no other |
| TaskCard.TickedSnoc | src/components/TaskCard.tsx:40-42 | One more subtask adds one to the number of ticked positions exactly when its key is ticked |
| TaskCard.TickedCons | src/components/TaskCard.tsx:40-42 | The number of ticked positions of a list is one for its first subtask when ticked plus that of the rest |
| TaskCard.CountCompletedAll | src/components/TaskCard.tsx:40-42 | The count is the number of subtasks exactly when every subtask key is ticked |
| TaskCard.CountCompletedNone | src/components/TaskCard.tsx:40-42 | The count is 0 exactly when no subtask key is ticked |
| TaskCard.SimpleToggle | src/components/TaskCard.tsx:85 | The simple box toggles the task id with no subtask and the task's points; LogTasks.CardTogglesItsOwnKey states the key it flips |
| TaskCard.DetailedToggle | src/components/TaskCard.tsx:111 | A detailed box toggles the task id with its subtask id and the subtask's points; LogTasks.CardTogglesItsOwnKey states the key it flips |
| Language.EnTable | src/contexts/LanguageContext.tsx:12-38 | The English table; SameKeys and ProperValues state its keys and values |
| Language.EnSwTable | src/contexts/LanguageContext.tsx:39-61 | The bilingual table; SameKeys and ProperValues state its keys and values |
| Language.SwTable | src/contexts/LanguageContext.tsx:62-84 | The Swahili table; SameKeys and ProperValues state its keys and values |
| Language.ParseCode | src/contexts/LanguageContext.tsx:3 | A parsed code names the language it parses to |
| Language.CodeRoundTrip | src/contexts/LanguageContext.tsx:3 | Every language's code parses back to it |
| Language.SameKeys | src/contexts/LanguageContext.tsx:11-85 | The three tables translate the same keys |
| Language.ProperValues | src/contexts/LanguageContext.tsx:11-85 | No translation is empty or equal to its key |
| Language.T | src/contexts/LanguageContext.tsx:99-101 | The table's string for a key it has, the key itself otherwise |
| Language.TDefined | src/contexts/LanguageContext.tsx:100 | For every key a table has, `t` answers with its string |
| Language.TFallsBackOnlyForMissingKeys | src/contexts/LanguageContext.tsx:100 | `t` returns the key exactly when the table lacks it |
| Language.TranslatedEverywhere | src/contexts/LanguageContext.tsx:11-101 | A key is translated in one language exactly when it is in all three |
| Language.InitialCodeAsWritten | src/contexts/LanguageContext.tsx:90-93 | As written: the saved string when truthy, "en" otherwise |
| Language.TAsWritten | src/contexts/LanguageContext.tsx:99-101 | As written: a language code without a table makes the lookup throw |
| Language.UnknownSavedCodeBreaksLookup | src/contexts/LanguageContext.tsx:90-101 | A saved "fr" becomes the language and every later `t` call throws |
| Language.InitialLanguage | src/contexts/LanguageContext.tsx:90-93 | Corrected: the saved language when the saved string names one, English otherwise |
| Language.InitialLanguageAgrees | src/contexts/LanguageContext.tsx:90-93 | The corrected choice agrees with the written one whenever the saved string names a language |
| Language.LanguageProvider.constructor | src/contexts/LanguageContext.tsx:90-97 | Corrected: start-up takes the language chosen by InitialLanguage from the saved preference (English for a missing or unknown one) and saves its code back |
| Language.LanguageProvider.SetLanguage | src/contexts/LanguageContext.tsx:95-97 | The new language is current and saved |
| Language.LanguageProvider.Translate | src/contexts/LanguageContext.tsx:99-101 | The current table's string for a key it has, the key otherwise |
| Language.ReloadKeepsLanguage | src/contexts/LanguageContext.tsx:90-97 | A provider started from what an earlier one saved comes up in the same language |
| Js.Decimal | src/pages/History.tsx:104 | The decimal text of n: only the digits '0' to '9', denoting n (DigitsValue), one digit exactly when n is below 10, and no leading zero except for 0 itself |
| Js.DigitsValue | src/pages/History.tsx:104 | The number a string of decimal digits denotes, most significant digit first; the reference Decimal is stated against |
| Js.RoundDiv | src/pages/Dashboard.tsx:112 | `Math.round(a / n)`: within half of a / n, halves rounded up |
| Js.RoundDivUnique | src/pages/Dashboard.tsx:112 | Only one integer lies within half of a / n with halves rounded up |
| Dates.Weekday | src/lib/financeStorage.ts:44 | `getDay()`: 0 to 6, Sunday 0, the weekday of day 0 being Thursday |
| Dates.CivilRoundTrip | src/lib/financeStorage.ts:32-37 | The calendar date of a day names it back |
| Dates.CivilInjective | src/pages/LogTasks.tsx:34-37 | Two days have the same year, month and day of month exactly when they are the same day |
| Dates.SetDate | src/lib/financeStorage.ts:48 | `setDate(k)`: the day k of the date's month and year, any k; SetDateShifts states the move |
| Dates.SetDateShifts | src/lib/financeStorage.ts:48 | `setDate(k)` moves to day k of the month, rolling over month and year ends |
| Dates.WeekdayNext | src/lib/financeStorage.ts:44 | The next day's weekday is the next one, Saturday wrapping to Sunday |
| Periods.StartOfWeek | src/lib/financeStorage.ts:44-49 | The week start: the reference day's day of month moved back by its weekday; WeekStart states it |
| Periods.EndOfWeek | src/lib/financeStorage.ts:51-53 | The week end: the start's day of month moved on by six; WeekEnd states it |
| Periods.InPeriod | src/lib/financeStorage.ts:31-64 | The filter callback: same day, same Sunday-to-Saturday week, same month and year, same year, or nothing for another period; WeeklyMeansSameWeek, DailyMeansSameDate and OtherKeepsNothing state it |
| Periods.WeekWindow | src/lib/financeStorage.ts:42-56 | The week starts on the Sunday on or before the reference day, ends six days later and contains it |
| Periods.WeekStart | src/lib/financeStorage.ts:44-49 | The week starts at the reference day minus its weekday |
| Periods.WeekEnd | src/lib/financeStorage.ts:51-53 | The week ends six days after its start |
| Periods.WeeklyMeansSameWeek | src/lib/financeStorage.ts:42-56 | A day is in the week exactly when it is in the same Sunday-start week as the reference day |
| Periods.DailyMeansSameDate | src/lib/financeStorage.ts:39-41 | A day is in the daily window exactly when it is the reference day's date |
| Periods.WindowsNest | src/lib/financeStorage.ts:39-62 | Daily lies within weekly and monthly, and monthly within yearly |
| Periods.OtherKeepsNothing | src/lib/financeStorage.ts:63 | Any other period keeps no day |
| Periods.WeekCrossesMonth | src/lib/financeStorage.ts:42-58 | The week of 2024-03-01 holds 2024-02-25, which the month window does not: weekly is not within monthly |
| Periods.WeekCrossesYear | src/lib/financeStorage.ts:42-62 | The week of 2025-01-01 holds 2024-12-29, which the year window does not |
| Periods.WednesdayWeek | src/lib/financeStorage.ts:44-52 | The week of Wednesday 2024-03-13 runs from Sunday the 10th to Saturday the 16th |
| Finance.Stamp | src/lib/financeStorage.ts:15-19 | The record carries the draft's fields, the fresh id and the current time |
| Finance.Tally | src/lib/financeStorage.ts:66-69 | The `reduce` over the records, adding each amount to its type's field; TallyIsKindTotals states it |
| Finance.KindTotalAppend | src/lib/financeStorage.ts:66-69 | Per-type totals of two lists, one after the other, add up |
| Finance.TallyIsKindTotals | src/lib/financeStorage.ts:66-69 | The `reduce` yields, per type, the sum of the amounts of that type; other types count nowhere |
| Finance.KindTotalPermutation | src/lib/financeStorage.ts:66-69 | Per-type totals do not depend on the order of the records |
| Finance.Filter | src/lib/financeStorage.ts:31-64 | The records whose day is in the window, in order; FilterMembers, FilterAppend and FilterCount state it |
| Finance.FilterMembers | src/lib/financeStorage.ts:31-64 | The filter keeps exactly the records whose day is in the window |
| Finance.FilterAppend | src/lib/financeStorage.ts:31-64 | The filter keeps order |
| Finance.FilterCount | src/lib/financeStorage.ts:31-64 | Each record is kept as often as it is stored when its day is in the window, never otherwise |
| Finance.FilterPermutation | src/lib/financeStorage.ts:31-64 | Reordering the records reorders the kept ones and nothing more |
| Finance.PeriodStats | src/lib/financeStorage.ts:24-70 | The tally of the filtered records; PeriodStatsFields and PeriodStatsOrderIndependent state it |
| Finance.PeriodStatsFields | src/lib/financeStorage.ts:29-69 | Each field is the sum of the amounts of the kept records of that type |
| Finance.PeriodStatsOrderIndependent | src/lib/financeStorage.ts:29-69 | The report does not depend on the order of the stored records |
| Finance.StatsAfterAppend | src/lib/financeStorage.ts:20 | One more record changes its type's total by its amount if its day is in the window, and nothing otherwise |
| Finance.EmptyWindowIsZero | src/lib/financeStorage.ts:63-69 | With no record in the window (or another period) the report is all zeros |
| LocalFinance.LocalFinanceStore.GetFinanceRecords | src/lib/financeStorage.ts:6-10 | Nothing without a user or an entry; the stored list otherwise |
| LocalFinance.LocalFinanceStore.SaveFinanceRecord | src/lib/financeStorage.ts:12-22 | Without a user nothing is stored or returned; otherwise the stamped record is appended to the user's list and returned |
| LocalFinance.LocalFinanceStore.GetFinanceStats | src/lib/financeStorage.ts:24-70 | Per-type sums of the user's records in the window; zeros without a user or for another period |
| LocalFinance.SaveThenStats | src/lib/financeStorage.ts:12-70 | A save moves its type's total of a report by its amount exactly when its day is in the window |
| HostedFinance.ToRecord | src/types/financeStorage.ts:21-24 | The timestamp is the stored one when truthy, else the creation time, else the current time |
| HostedFinance.ToRecords | src/types/financeStorage.ts:21-24 | Every row is mapped, in order |
| HostedFinance.ToRecordsAppend | src/types/financeStorage.ts:21-24 | Mapping two lists of rows is mapping each |
| HostedFinance.OwnRowsMembers | src/types/financeStorage.ts:13 | The selection keeps exactly the user's rows |
| HostedFinance.InsertByDate | src/types/financeStorage.ts:14 | Inserting into a latest-first list keeps it latest first and adds exactly the record |
| HostedFinance.SortByDateDesc | src/types/financeStorage.ts:14 | The order is latest date first and holds the same records |
| HostedFinance.NewRowReadsBack | src/types/financeStorage.ts:21-40 | A saved row is read back as the draft with its id and creation time |
| HostedFinance.SaveAddsOneRecord | src/types/financeStorage.ts:27-41 | After a save the user's next read holds the earlier records plus the saved one |
| HostedFinance.SaveLeavesOthers | src/types/financeStorage.ts:35 | A save leaves every other user's reads as they were |
| HostedFinance.FilterKeepsOrder | src/types/financeStorage.ts:51-94 | The records in the window stay latest first |
| HostedFinance.HostedFinanceStore.GetFinanceRecords | src/types/financeStorage.ts:7-25 | Nothing for an empty user id or a failed read; otherwise exactly the user's records, latest first |
| HostedFinance.HostedFinanceStore.SaveFinanceRecord | src/types/financeStorage.ts:27-41 | An empty user id is refused, a failed insert reported; otherwise one row is added and returned |
| HostedFinance.HostedFinanceStore.GetFinanceStats | src/types/financeStorage.ts:44-95 | The order-preserving filter of the fetched records to the window (each record kept as often as fetched when in the window, never otherwise), latest first, and per-type sums over exactly them; zeros and none for another period |
| HostedFinance.HostedStatsMatchLocal | src/types/financeStorage.ts:85-91 | The hosted totals equal those the browser-storage report computes over the same records |
| DayTotals.SumTotalsAppend | src/pages/History.tsx:32 | The totals of two lists of days, one after the other, add up |
| DayTotals.SumTotalsSplit | src/pages/Dashboard.tsx:31-32 | A prefix's total and the rest's total make up the whole |
| DayTotals.SumTotalsCountsEveryLog | src/pages/History.tsx:32 | On stored rows the sum of the day totals is the sum of the points of every log |
| DayTotals.SumTotalsBounds | src/pages/History.tsx:32-33 | n days whose totals lie in [lo, hi] sum to between n·lo and n·hi |
| Dashboard.MaxDailyPoints | src/pages/Dashboard.tsx:20 | The sum of the catalogue's task points; MaxDailyPointsIsHundred states its value |
| Dashboard.MaxDailyPointsIsHundred | src/pages/Dashboard.tsx:20 | `maxDailyPoints`, the catalogue's point sum, is 100; a stored day can hold more, as saves are not deduplicated |
| Dashboard.TodayProgress | src/pages/Dashboard.tsx:28 | Today's row's total, 0 without a row |
| Dashboard.TodayProgressFromStore | src/pages/Dashboard.tsx:26-28 | Today's points are the sum of the points of every log saved for today |
| Dashboard.WeekLength | src/pages/Dashboard.tsx:31 | `slice(0, 7)` keeps seven rows, or all when there are fewer |
| Dashboard.WeekProgress | src/pages/Dashboard.tsx:30-33 | The sum of the totals of the first seven rows of the latest-first list; WeekProgressSplit and WeekProgressFromStore state what it counts |
| Dashboard.WeekProgressSplit | src/pages/Dashboard.tsx:30-33 | The week total and the rows left out make up the total of all rows; with seven rows or fewer nothing is left out |
| Dashboard.WeekProgressFromStore | src/pages/Dashboard.tsx:30-33 | The week total is the sum of every log of the seven latest logged dates, each later than every date left out |
| Dashboard.WeekIsLoggedDaysNotCalendarDays | src/pages/Dashboard.tsx:30-33 | Illustration on fixed rows: three logged days spread over four weeks all count toward the week (WeekProgressFromStore states the general fact) |
| Dashboard.AverageDaily | src/pages/Dashboard.tsx:112 | 0 for no points; otherwise within half a point of a seventh of the week |
| Dashboard.AverageOfSteadyWeek | src/pages/Dashboard.tsx:112 | Seven days of the same positive total average to that total |
| Dashboard.ProgressPercentage | src/pages/Dashboard.tsx:39 | At most 100, equal to 100 exactly when today reaches the maximum, and today's points below it |
| History.TotalAllTime | src/pages/History.tsx:32 | The sum of the day totals; HistoryFromStore states it is every saved log's points |
| History.DaysTracked | src/pages/History.tsx:33 | The number of days listed; HistoryFromStore states it is the number of stored days |
| History.AverageDaily | src/pages/History.tsx:33 | 0 without days; otherwise within half a point of the total over the days |
| History.HistoryFromStore | src/pages/History.tsx:21-32 | The total is the sum of every log saved, and the days tracked are the distinct logged dates |
| History.AverageWithinDayTotals | src/pages/History.tsx:32-33 | The average lies between the smallest and the largest day total |
| History.FindTask | src/pages/History.tsx:28 | The first task with the id, none exactly when no task has it |
| History.GetTaskName | src/pages/History.tsx:27-30 | The found task's non-empty English name, the id itself otherwise |
| History.CatalogueTaskNames | src/pages/History.tsx:27-30 | Each catalogue id shows its English name; an unknown id shows itself |
| History.CardOf | src/pages/History.tsx:104-117 | A day's card shows its log count (plural exactly when not 1), its stored total and one badge per log, in order |
| History.BadgesAddUpToDayTotal | src/pages/History.tsx:107-117 | On a stored day the badges' points add up to the card's total |

## Left out

- Network, database and browser storage are abstracted into class fields. JSON, the `.single()` error codes beyond "no rows" against any other error, and logging to the console are left out.
- Concurrency is left out. Two saves to the same row can race in the source, because each reads, appends and writes back. "Complete all" starts its saves together with `Promise.all`, and the model applies them one after the other in subtask order.
- Time zones are left out. A date is a calendar day. The source parses `yyyy-MM-dd` as UTC and then resets hours in local time. The dashboard takes "today" from `toISOString` (the UTC date), while the logging page uses the local date.
- Amounts are integers. The source uses JavaScript numbers (`Number(amount)` in the hosted report). Floating-point rounding, `NaN` and non-numeric amounts are left out. Only the dashboard's progress percentage is a real.
- The browser-storage report adds a record of an unknown type as `acc[type] += amount`. That creates an extra `NaN` field on the returned object. The model only states that the three fields ignore such records.
- The hosted read spreads every column of a row into the record (`...item`). The model keeps the fields the record type names.
- Equal dates in the hosted order are not ordered further. The model states only "latest date first" and "same records", as the database leaves ties unspecified.
- The toasts, the "Back to Today" button, the `PPP` date on the picker and the history heading's `EEEE, MMMM d, yyyy` format are presentation, and are left out.
- React state plumbing (effects re-running on `user` or `dateString`, asynchronous `setState`) is modelled as one method call per handler.
- LogTasks.LogTasksPage.HandleToggleTask: the ticked set flips even when the store refused the write. This is what the code does, and the contract states it as such. The store and the page then disagree until the next load.
- Language.T: keys are plain strings. A key that names a property of every JavaScript object (such as `constructor`) would return that property, not the key. That is left out.
- Language.LanguageProvider.constructor: the provider holds only the three languages and starts from the corrected choice of ## Findings (InitialLanguage); as written, a saved "fr" would be kept and saved back (Language.InitialCodeAsWritten).
- TaskStore.ProgressStore.GetTaskLogsForDate: the function is not in the store's source. It is modelled as the row's logs.
- src/pages/finance/FinanceDashboard.tsx, App.tsx, Navigation.tsx, Auth.tsx and LogFinance.tsx are not part of this model. They contain presentation, routing and forms.

## Findings

| source | as written | input that shows it | evidently intended | confidence | as-written member | corrected member |
|---|---|---|---|---|---|---|
| src/contexts/LanguageContext.tsx:90-101 | The saved preference is taken as the language without checking it names one of the three. `translations[language]` is then `undefined`, and `t` throws on it. | browser storage holding `fourk-language = "fr"` | fall back to English when the saved string is not a known language | not executed | Language.UnknownSavedCodeBreaksLookup | Language.InitialLanguage |
| src/pages/LogTasks.tsx:220 | The "Complete All" button (and the toasts at lines 134 and 138) calls `t(task.id)`. The tables hold task names only under `category.<id>`, so `t` falls back and shows the raw id. | English, the bathing task: the label reads "Complete All kuoga" | `t(`category.${task.id}`)`, which yields "Complete All Bathing", the card's own name | not executed | LogTasks.CompleteAllLabelShowsRawId | LogTasks.CompleteAllLabel |
