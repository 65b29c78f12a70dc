# Task manager core, modelled in Dafny

This project models the logic of a small single-page task manager. It has
five parts:

- **The task store.** Add, update by partial patch, delete, toggle status,
  the next occurrence of a recurring task, the reminder scan, and the
  today / upcoming / completed / priority / category views.
- **The authentication provider.** Two mock accounts, a case-insensitive
  username lookup and the two stored keys.
- **The pages and dialogs that transform tasks.** The tasks page, the new-task
  dialog, the task detail editor, the login and registration forms, the
  calendar (month grid, week strip, month navigation) and the weekly summary.
- **The task card's display helpers.**
- **The focus timer.**

Each file is one part of the program:

| file | models |
|---|---|
| `types.dfy` | the task record, its enumerations, drafts and `Partial<Task>` patches |
| `dates.dfy` | the calendar arithmetic that JavaScript `Date` performs (day numbers, rolling out-of-range months and days, `HH:MM` times) |
| `strings.dfy` | `trim`, `length`, `parseInt`, number-to-text, `padStart`, `toLowerCase`, `split` |
| `seqs.dfy` | filtering, counting, `slice`, `map` on sequences |
| `task_store.dfy` | the task provider; `Store` is its `tasks` state |
| `auth.dfy` | the authentication provider; `AuthStore` is its state |
| `tasks_page.dfy` | the tasks page's list and empty state |
| `add_task_modal.dfy` | the new-task dialog; `AddTaskForm` is its state |
| `task_detail.dfy` | the task detail editor; `EditForm` is its state |
| `login.dfy` | the login and registration forms; `LoginForm` is their state |
| `calendar.dfy` | the calendar page; `CalendarPage` is its state |
| `weekly_summary.dfy` | the weekly summary card |
| `task_card.dfy` | the task card's time, tag and subtask displays |
| `focus_timer.dfy` | the focus timer; `Timer` is its state |

The model uses a few conventions:

- Optional properties are `Option` values.
- A `Partial<Task>` is a record of optional keys, so a missing key and a key
  set to `undefined` are different.
- Calendar dates are `Date(year, month 1..12, day)` records with a day
  number counted from 1970-01-01.
- Instants are whole milliseconds, in UTC.
- The clock, generated ids, creation times and the saved storage contents
  are parameters.
- React state that handlers replace becomes a class whose methods reassign
  its fields.
- Every list transformation is a function over sequences.

## Model

| member | source | states |
|---|---|---|
| TaskTypes.CategoryNameInjective | src/types/task.ts:12-18 | distinct categories have distinct string values |
| TaskStore.FromDraft | src/context/task-context.tsx:51-57 | the new task has the given id and creation time, is pending, and its draft part is exactly the draft |
| TaskStore.ApplyPatchLaws | src/context/task-context.tsx:71 | spreading `{}` changes nothing; spreading a whole task replaces the task; applying a patch twice is applying it once |
| TaskStore.FindTask | src/context/task-context.tsx:96-98 | `None` iff no task has the id; otherwise the task has the id and no earlier task has it |
| TaskStore.Updated | src/context/task-context.tsx:68-73 | same length; tasks with the id are patched, the others are unchanged |
| TaskStore.UpdateUnknownId | src/context/task-context.tsx:68-73 | an id no task has leaves the list unchanged |
| TaskStore.UpdateIdempotent | src/context/task-context.tsx:68-73 | the same update twice equals it once |
| TaskStore.Deleted | src/context/task-context.tsx:82-85 | the result keeps list order and holds exactly the tasks without the id, each as many times as before |
| TaskStore.DeleteLaws | src/context/task-context.tsx:82-85 | deleting is idempotent; deleting an unknown id changes nothing |
| TaskStore.Toggled | src/context/task-context.tsx:100-118 | exactly the tasks with the id flip between pending and completed |
| TaskStore.FindToggled | src/context/task-context.tsx:96-118 | after a toggle, looking the id up finds the same first task with its status flipped |
| TaskStore.ToggleTwice | src/context/task-context.tsx:100-118 | toggling twice restores the list |
| TaskStore.RecurrenceSources | src/context/task-context.tsx:103-111 | next occurrences are scheduled for exactly the pending tasks with the id whose recurrence type is not none |
| TaskStore.NextDueDate | src/context/task-context.tsx:121-144 | defined iff the task recurs and its due date is a date; daily +1, weekly +7, custom `interval \|\| 1` days; monthly is the same day-of-month counted from the first of the next month |
| TaskStore.NextOccurrence | src/context/task-context.tsx:146-169 | created iff there is a next date that is not after the end date; its due date is that next date |
| TaskStore.NextOccurrenceCopies | src/context/task-context.tsx:155-169 | the occurrence copies the task's fields, drops subtasks and notes, and resets `notified` to false |
| TaskStore.Scanned | src/context/task-context.tsx:181-221 | same length; each due reminder is marked notified, every other task is unchanged |
| TaskStore.ScanChangesOnlyDueReminders | src/context/task-context.tsx:187-215 | a task changes iff its reminder is due, and then only its `notified` flag becomes true |
| TaskStore.ScanCompose | src/context/task-context.tsx:181-221 | a scan followed by a later one equals the later one alone; repeating a scan changes nothing |
| TaskStore.FilteredTasksMembership | src/context/task-context.tsx:223-262 | the today, upcoming and completed views hold exactly the matching tasks, in list order; `'all'` is the whole list |
| TaskStore.CompletedTodayExcluded | src/context/task-context.tsx:234-249 | a completed task due today appears under completed and not under today |
| TaskStore.ByPrioritySorted | src/context/task-context.tsx:251-257 | the priority view is ordered high, medium, low |
| TaskStore.PriorityPartition | src/context/task-context.tsx:254-257 | splitting by the three priorities is a permutation |
| TaskStore.ByPriorityPermutation | src/context/task-context.tsx:251-257 | the priority view is a permutation of the open tasks |
| TaskStore.ByPriorityStable | src/context/task-context.tsx:254-257 | within one priority the view keeps list order, as the stable sort does |
| TaskStore.SamePriorityClass | src/context/task-context.tsx:255-256 | filtering one priority class by a priority keeps all of it or none of it |
| TaskStore.TasksByCategory | src/context/task-context.tsx:265-270 | `'all'` gives the list itself; a category gives exactly its tasks, in order, every copy kept |
| TaskStore.Store.constructor | src/context/task-context.tsx:33-36 | the saved list when storage has one, otherwise the seed tasks |
| TaskStore.Store.AddTask | src/context/task-context.tsx:51-59 | appends the new pending task |
| TaskStore.Store.UpdateTask | src/context/task-context.tsx:68-73 | the list becomes `Updated` |
| TaskStore.Store.DeleteTask | src/context/task-context.tsx:82-94 | the list becomes `Deleted`; the deletion notice is shown iff a task had the id |
| TaskStore.Store.GetTaskById | src/context/task-context.tsx:96-98 | a found task is the first task in the list with that id; `None` means no task has it |
| TaskStore.Store.ToggleTaskStatus | src/context/task-context.tsx:100-118 | the list becomes `Toggled`; returns the tasks whose next occurrence is scheduled |
| TaskStore.Store.CreateRecurringTask | src/context/task-context.tsx:121-178 | appends the next occurrence iff there is one; otherwise nothing changes |
| TaskStore.Store.CheckReminders | src/context/task-context.tsx:181-221 | the list becomes `Scanned` at the given instant |
| Auth.FindUser | src/context/auth-context.tsx:45-47 | `None` iff no account matches; otherwise the first matching account |
| Auth.SignedIn | src/context/auth-context.tsx:50 | the stored user carries the account's username and name, and `username@example.com` |
| Auth.KnownCredentials | src/context/auth-context.tsx:36-47 | `demo`/`demo123` and `KACPER`/`reliance123` sign in; a wrong-case password does not |
| Auth.LoginIgnoresNameCase | src/context/auth-context.tsx:46 | usernames that lower-case alike give the same lookup |
| Auth.AuthStore.Restore | src/context/auth-context.tsx:25-33 | authenticated iff the stored flag is exactly `"true"`; the stored user is restored |
| Auth.AuthStore.Login | src/context/auth-context.tsx:41-68 | succeeds iff the lookup finds an account; then both stored keys are written; otherwise nothing changes |
| Auth.AuthStore.Logout | src/context/auth-context.tsx:70-83 | signed out, both keys removed |
| TasksPage.VisibleTasks | src/pages/tasks.tsx:19-27 | `'all'` gives the filter's view; a category gives exactly the view's tasks in that category, in order, every copy kept |
| TasksPage.CompletedInCategory | src/pages/tasks.tsx:19-27 | under completed and a category: exactly the completed tasks of that category |
| TasksPage.TodayInCategory | src/pages/tasks.tsx:19-27 | under today and a category: exactly the open tasks due today in that category |
| TasksPage.UpcomingInCategory | src/pages/tasks.tsx:19-27 | under upcoming and a category: exactly the open tasks due in the next seven days in that category |
| TasksPage.EmptyIcon | src/pages/tasks.tsx:85-89 | the check-mark icon iff the filter is completed, else the list icon |
| TasksPage.EmptyTitle | src/pages/tasks.tsx:90-94 | "No completed tasks" iff the filter is completed, else "No tasks found" |
| TasksPage.CategoryDescription | src/pages/tasks.tsx:95-101 | with a category, the text reads back the filter key and the category name at fixed places |
| TasksPage.AllCategoriesDescription | src/pages/tasks.tsx:95-101 | with `'all'`, the encouragement iff the filter is completed, else the generic text |
| TasksPage.EmptyDescriptionNamesCategory | src/pages/tasks.tsx:95-101 | different categories give different descriptions |
| AddTaskModal.Defaults | src/components/add-task-modal.tsx:31-48 | the dialog's initial values: empty texts, today, medium, uncategorized, on calendar, no recurrence, interval 1, reminder off at 3 hours |
| AddTaskModal.TagList | src/components/add-task-modal.tsx:72 | absent iff the text is blank; otherwise one trimmed tag per comma-separated piece, one more than the commas |
| AddTaskModal.TagsAreTrimmedPieces | src/components/add-task-modal.tsx:72 | no tag holds a comma or starts or ends with white space |
| AddTaskModal.ReminderTime | src/components/add-task-modal.tsx:57-63 | no reminder time unless enabled with a due time; then `reminderHours` before the due instant; invalid when the date-time or the hours are invalid |
| AddTaskModal.BuildDraft | src/components/add-task-modal.tsx:50-90 | nothing happens iff the title is blank; a throw iff the date or reminder time is invalid; otherwise the draft built from the fields |
| AddTaskModal.DraftFields | src/components/add-task-modal.tsx:65-90 | field by field: trimmed non-empty title, blank description absent, the picked due date, the due time when one was entered, tags, recurrence only when not none with the entered interval only for custom, reminder only when enabled |
| AddTaskModal.ReminderComesDueHoursBefore | src/components/add-task-modal.tsx:57-63 | once added, the reminder comes due exactly when `reminderHours` before the due date and time has passed |
| AddTaskModal.CustomIntervalIsTheStep | src/components/add-task-modal.tsx:78 | a custom recurrence created here repeats every `recurrenceInterval` days |
| AddTaskModal.AddTaskForm.constructor | src/components/add-task-modal.tsx:31-48 | the initial values, not submitting |
| AddTaskModal.AddTaskForm.SetInterval | src/components/add-task-modal.tsx:304 | the interval becomes `parseInt(value) \|\| 1`, never 0 |
| AddTaskModal.AddTaskForm.SetReminderHours | src/components/add-task-modal.tsx:341 | the hours become `parseInt(value)`, with no fallback |
| AddTaskModal.AddTaskForm.Edit | src/components/add-task-modal.tsx:113-135 | any other field is set as given |
| AddTaskModal.AddTaskForm.Submit | src/components/add-task-modal.tsx:50-111 | blank title: nothing changes; a throw: nothing added and still submitting; otherwise the task is added and every field resets |
| AddTaskModal.AddTaskForm.Finish | src/components/add-task-modal.tsx:51-109 | the same three outcomes, given the built draft |
| TaskDetail.DueDateChanged | src/pages/task-detail.tsx:75-88 | a picked date becomes the due date; clearing the picker changes nothing; nothing else changes |
| TaskDetail.SubtaskAdded | src/pages/task-detail.tsx:90-105 | ignored iff the input is blank; otherwise the trimmed title is appended as an open subtask and nothing else changes |
| TaskDetail.SubtasksToggled | src/pages/task-detail.tsx:107-114 | exactly the subtasks with the id flip `completed`; ids and titles are kept |
| TaskDetail.SubtasksToggledTwice | src/pages/task-detail.tsx:107-114 | toggling twice restores the list |
| TaskDetail.SubtasksRemoved | src/pages/task-detail.tsx:129-136 | drops exactly the subtasks with the id and keeps every other one, in order |
| TaskDetail.TagAdded | src/pages/task-detail.tsx:141-145 | the tag is present, the old tags are a prefix, and no duplicate is introduced |
| TaskDetail.TagRemoved | src/pages/task-detail.tsx:155-162 | every copy of the tag goes; every copy of each other tag stays, in order |
| TaskDetail.TagAddRemove | src/pages/task-detail.tsx:138-162 | adding a new tag and removing it gives the tags back |
| TaskDetail.TagInputAppliedLaws | src/pages/task-detail.tsx:138-153 | only the tags change; blank input changes nothing; otherwise the trimmed input is among the tags, after the old ones, and nothing else is added |
| TaskDetail.RecurrenceTypeChanged | src/pages/task-detail.tsx:164-183 | as written: none removes the recurrence; another type creates `{type}` only when there is none, and an existing recurrence keeps its own type |
| TaskDetail.SwitchingTypeKeepsOldType | src/pages/task-detail.tsx:174-180 | as written, choosing weekly for a daily task leaves it daily |
| TaskDetail.RecurrenceTypeSet | src/pages/task-detail.tsx:164-183 | the intended change: none removes the recurrence; another type becomes the recurrence's type, interval and end date kept |
| TaskDetail.SwitchToWeeklyStepsAWeek | src/pages/task-detail.tsx:174-180 | after the intended switch to weekly, the next due date is seven days on |
| TaskDetail.IntervalChanged | src/pages/task-detail.tsx:185-195 | without a recurrence nothing changes; otherwise only the interval changes, to a non-zero value |
| TaskDetail.IntervalSetsCustomStep | src/pages/task-detail.tsx:185-195 | a custom recurrence's next date moves by `parseInt(value) \|\| 1` days |
| TaskDetail.EndDateChanged | src/pages/task-detail.tsx:197-222 | without a recurrence nothing changes; a picked date becomes the end date; clearing removes only the end date |
| TaskDetail.EndDateIsInclusive | src/pages/task-detail.tsx:197-222 | an end date on the next due date still allows that occurrence; one on the current due date stops it |
| TaskDetail.DueInstant | src/pages/task-detail.tsx:233-235 | the due date at the due time (`DateTimeInstant`), or at noon without one; within the due day; invalid for an invalid date |
| TaskDetail.ReminderToggled | src/pages/task-detail.tsx:224-248 | off removes the reminder; on sets an enabled, unnotified reminder three hours before the due instant; fails iff that instant is invalid |
| TaskDetail.ReminderHoursChanged | src/pages/task-detail.tsx:250-267 | without a reminder nothing changes; otherwise only the time changes, to `parseInt(value) \|\| 3` hours before the due instant |
| TaskDetail.DefaultReminderIsThreeHours | src/pages/task-detail.tsx:224-267 | choosing 3 hours right after switching the reminder on changes nothing |
| TaskDetail.SpreadPatch | src/pages/task-detail.tsx:63-68 | a field removed in the form is a key missing from the update |
| TaskDetail.SaveAsWrittenKeepsRemovedRecurrence | src/pages/task-detail.tsx:164-172 | as written, saving after removing the recurrence leaves the stored recurrence in place |
| TaskDetail.SaveAsWrittenKeepsRemovedReminder | src/pages/task-detail.tsx:224-230 | as written, saving after switching the reminder off leaves the stored reminder in place |
| TaskDetail.SaveStoresEditedTask | src/pages/task-detail.tsx:63-68 | saving every key stores exactly the edited task and leaves the other tasks unchanged |
| TaskDetail.EditForm.constructor | src/pages/task-detail.tsx:32-43 | the form starts from a copy of the task, with empty inputs, not editing |
| TaskDetail.EditForm.StartEditing | src/pages/task-detail.tsx:365 | edit mode on, nothing else changes |
| TaskDetail.EditForm.Cancel | src/pages/task-detail.tsx:329-332 | edit mode off, the stored task copied back |
| TaskDetail.EditForm.Resync | src/pages/task-detail.tsx:39-43 | the form takes a fresh copy of the stored task, in edit mode or not |
| TaskDetail.EditForm.ToggleStatus | src/pages/task-detail.tsx:379-381 | the store becomes `Toggled`; the form then holds the stored task with its status flipped |
| TaskDetail.EditForm.TypeSubtask | src/pages/task-detail.tsx:35 | only the subtask input changes |
| TaskDetail.EditForm.TypeTag | src/pages/task-detail.tsx:36 | only the tag input changes |
| TaskDetail.EditForm.ChangeDueDate | src/pages/task-detail.tsx:75-88 | the edited task becomes `DueDateChanged` |
| TaskDetail.EditForm.Delete | src/pages/task-detail.tsx:70-73 | the store loses every task with the page's id |
| TaskDetail.EditForm.AddSubtask | src/pages/task-detail.tsx:90-105 | blank input changes nothing; otherwise the subtask is added and the input cleared |
| TaskDetail.EditForm.ToggleSubtask | src/pages/task-detail.tsx:107-127 | the subtask flips; outside edit mode the store is updated with the spread of the edited task, so keys the form lacks are left as stored |
| TaskDetail.EditForm.RemoveSubtask | src/pages/task-detail.tsx:129-136 | the edited task's subtasks become `SubtasksRemoved` |
| TaskDetail.EditForm.AddTag | src/pages/task-detail.tsx:138-153 | the edited task becomes `TagInputApplied`; a non-blank input is cleared even when the tag was already there |
| TaskDetail.EditForm.RemoveTag | src/pages/task-detail.tsx:155-162 | the edited task's tags become `TagRemoved` |
| TaskDetail.EditForm.ChangeRecurrenceType | src/pages/task-detail.tsx:164-183 | the edited task becomes `RecurrenceTypeChanged`, as written: an existing recurrence keeps its type |
| TaskDetail.EditForm.ChangeInterval | src/pages/task-detail.tsx:185-195 | the edited task becomes `IntervalChanged` |
| TaskDetail.EditForm.ChangeEndDate | src/pages/task-detail.tsx:197-222 | the edited task becomes `EndDateChanged` |
| TaskDetail.EditForm.ToggleReminder | src/pages/task-detail.tsx:224-248 | the edited task becomes `ReminderToggled`, or stays as it was when that throws |
| TaskDetail.EditForm.ChangeReminderHours | src/pages/task-detail.tsx:250-267 | the edited task becomes `ReminderHoursChanged`, or stays as it was when that throws |
| TaskDetail.EditForm.Save | src/pages/task-detail.tsx:63-68 | corrected, see ## Findings: each stored task with the id becomes the edited task, removed fields included; edit mode off |
| LoginPage.RegistrationError | src/pages/login.tsx:79-98 | no message iff every field is filled, the email has `@` and `.`, the passwords match and are at least 8 UTF-16 code units long |
| LoginPage.FourEmojiPassword | src/pages/login.tsx:95 | a password of four emoji is long enough, being eight code units |
| LoginPage.RegistrationErrorOrder | src/pages/login.tsx:79-98 | each message is given exactly when its check is the first to fail |
| LoginPage.RegisterAsWritten | src/pages/login.tsx:100-133 | as written, a valid registration clears the form and still reports the registration error |
| LoginPage.RegisterAsWrittenReportsFailure | src/pages/login.tsx:123 | a concrete valid registration that ends cleared and with the failure message |
| LoginPage.RegisterIntended | src/pages/login.tsx:76-133 | the form is cleared iff validation passes, and then shows no error |
| LoginPage.LoginForm.constructor | src/pages/login.tsx:21-38 | empty forms, login tab, nothing loading |
| LoginPage.LoginForm.HandleLogin | src/pages/login.tsx:50-74 | blank fields give the first message and leave the provider alone; otherwise success iff the account is found, signing in that account's user with both keys stored, and a refusal gives the second message and leaves the provider's state and keys unchanged |
| LoginPage.LoginForm.HandleRegister | src/pages/login.tsx:76-134 | corrected, see ## Findings: a failed check sets its message only; a valid form clears it, selects the login tab, copies the username and shows no error |
| FocusTimer.PhaseLength | src/components/focus-timer.tsx:24-25 | 25 minutes for focus, 5 for a break |
| FocusTimer.Progress | src/components/focus-timer.tsx:38-41 | between 0 and 100; 0 iff the phase is full, 100 iff no time is left |
| FocusTimer.ProgressStep | src/components/focus-timer.tsx:38-41 | each second counted down adds the same share |
| FocusTimer.FormatTime | src/components/focus-timer.tsx:31-35 | at least five characters with the colon third from the end |
| FocusTimer.FormatTimeDigits | src/components/focus-timer.tsx:31-35 | below 100 minutes: two minute digits, a colon, two second digits |
| FocusTimer.FormatTimeRoundTrip | src/components/focus-timer.tsx:31-35 | reading the display gives back the seconds |
| FocusTimer.FormatTimeExamples | src/components/focus-timer.tsx:19-35 | a full focus phase shows `25:00`, 65 seconds `01:05` |
| FocusTimer.Timer.constructor | src/components/focus-timer.tsx:18-21 | focus, 25:00, no cycles, paused |
| FocusTimer.Timer.Tick | src/components/focus-timer.tsx:53-81 | performs exactly one `Step`: counts down; at the end it stops the interval and switches phase, counting a cycle after focus |
| FocusTimer.Timer.Toggle | src/components/focus-timer.tsx:44-85 | `isActive` flips and the interval runs iff the timer was paused |
| FocusTimer.Timer.Reset | src/components/focus-timer.tsx:88-98 | back to the initial state |
| FocusTimer.Timer.CompleteTask | src/components/focus-timer.tsx:117-122 | toggles the dialog's task when there is one |
| FocusTimer.Step | src/components/focus-timer.tsx:54-79 | one tick keeps the count within its phase and adds at most one cycle |
| FocusTimer.StepsCountDown | src/components/focus-timer.tsx:54-79 | within a phase, `k` ticks take `k` seconds off |
| FocusTimer.FocusPhaseEndsInBreak | src/components/focus-timer.tsx:53-81 | 1500 ticks from a fresh focus phase give a full break and one more cycle |
| FocusTimer.StepsSplit | src/components/focus-timer.tsx:53-81 | a run of ticks splits at any point |
| Calendar.GetDaysInMonth | src/pages/calendar.tsx:23-25 | day 0 of the next month is the month's length |
| Calendar.LastDayRollsBack | src/pages/calendar.tsx:23-25 | `new Date(y, m + 1, 0)` is the month's last day |
| Calendar.GetFirstDayOfMonth | src/pages/calendar.tsx:27-29 | a weekday 0..6 |
| Calendar.FirstDayOfNextMonth | src/pages/calendar.tsx:27-29 | a month starts the weekday after the previous month's last day |
| Calendar.WeekdayShift | src/pages/calendar.tsx:27-29 | moving `k` days moves the weekday `k` places, modulo seven |
| Calendar.GenerateCalendarDays | src/pages/calendar.tsx:31-82 | 42 squares, square `k` being `CellAt(k)` |
| Calendar.FillGrid | src/pages/calendar.tsx:38-81 | the three loops fill the 42 squares: previous-month tail, the month, next-month head |
| Calendar.CellAtGrid | src/pages/calendar.tsx:35-43 | the grid's month lengths are the calendar's |
| Calendar.GridIsConsecutive | src/pages/calendar.tsx:45-79 | the 42 squares are consecutive valid dates starting `firstDay` days before the 1st |
| Calendar.GridColumnsAreWeekdays | src/pages/calendar.tsx:116-129 | square `k` falls on weekday `k mod 7`, so the columns match the Sun..Sat header |
| Calendar.GridHoldsTheMonth | src/pages/calendar.tsx:45-79 | a square is in the current month iff it is one of the `daysInMonth` squares after `firstDay`, iff its date is in that month |
| Calendar.AtMostOneToday | src/pages/calendar.tsx:55-66 | at most one square is today, and it is in the current month |
| Calendar.TodayIsMarked | src/pages/calendar.tsx:55-66 | when today is in the month, its square is marked |
| Calendar.TasksForDate | src/pages/calendar.tsx:84-93 | exactly the tasks due on the date, in order, every copy kept |
| Calendar.DayPreview | src/pages/calendar.tsx:151-163 | the first three tasks, and a `+n more` count iff there are more than three |
| Calendar.WeekDays | src/pages/calendar.tsx:175-186 | seven dates, the `i`-th being `i` days after the start of the week |
| Calendar.WeekIsSundayToSaturday | src/pages/calendar.tsx:175-186 | the week's `i`-th date falls on weekday `i`, in the week that holds the current date |
| Calendar.WeekdayFromSunday | src/pages/calendar.tsx:175-186 | counting from the Sunday on or before a day, the `k`-th day falls on weekday `k mod 7` |
| Calendar.ShiftMonthAsWritten | src/pages/calendar.tsx:95-109 | `setMonth(getMonth() ± 1)` gives a valid date |
| Calendar.MonthButtonsSkipOrStay | src/pages/calendar.tsx:95-109 | in every year, next from January 31 and previous from March 31 both land in March |
| Calendar.FebruaryThirtyFirst | src/pages/calendar.tsx:98 | February 31 rolls into March 3, or March 2 in a leap year |
| Calendar.ShiftMonth | src/pages/calendar.tsx:95-109 | the month index moves by exactly `k`; the day is kept, or clamped to the target month's length |
| Calendar.ShiftMonthBackAndForth | src/pages/calendar.tsx:95-109 | back and forth returns to the same month, and to the same date for days up to 28 |
| Calendar.CalendarPage.constructor | src/pages/calendar.tsx:13-14 | today, month view |
| Calendar.CalendarPage.ShowPreviousMonth | src/pages/calendar.tsx:95-101 | corrected, see ## Findings: the shown date moves exactly one month back, the day clamped to that month |
| Calendar.CalendarPage.ShowNextMonth | src/pages/calendar.tsx:103-109 | corrected, see ## Findings: the shown date moves exactly one month on, the day clamped to that month |
| Calendar.CalendarPage.SetView | src/pages/calendar.tsx:14 | only the view changes |
| WeeklySummary.WeekWindow | src/components/weekly-summary.tsx:12-27 | Sunday 00:00 to Saturday 23:59:59.999 of the week holding now |
| WeeklySummary.InWeekByDays | src/components/weekly-summary.tsx:33-36 | a due date is in the window iff it is one of the seven days from that Sunday |
| WeeklySummary.WeeklyTasks | src/components/weekly-summary.tsx:30-37 | exactly the tasks due in the window, in order, every copy kept |
| WeeklySummary.CompletionRate | src/components/weekly-summary.tsx:41-43 | 0 with no tasks; otherwise the nearest whole percentage, halves rounding up, between 0 and 100 |
| WeeklySummary.RoundingBounds | src/components/weekly-summary.tsx:42 | the rounded percentage is within half a point of the exact one |
| WeeklySummary.CompletedTasks | src/components/weekly-summary.tsx:40 | exactly the completed weekly tasks, in their order, every copy kept |
| WeeklySummary.RecentlyCompleted | src/components/weekly-summary.tsx:160-167 | the first three completed tasks, or all of them when there are fewer |
| WeeklySummary.CategoryOrder | src/components/weekly-summary.tsx:46-52 | each category of the tasks once, in order of first appearance |
| WeeklySummary.CategoryOrderPrefix | src/components/weekly-summary.tsx:46-52 | categories met earlier are listed earlier |
| WeeklySummary.GroupByCategory | src/components/weekly-summary.tsx:46-52 | one group per category in first-appearance order, each holding its tasks in order |
| WeeklySummary.FindGroup | src/components/weekly-summary.tsx:47 | the index of the category's group, or the number of groups when it has none |
| WeeklySummary.PushKeepsGrouped | src/components/weekly-summary.tsx:50 | pushing onto an existing group keeps the grouping |
| WeeklySummary.OpenKeepsGrouped | src/components/weekly-summary.tsx:47-50 | opening a new group keeps the grouping |
| WeeklySummary.GroupsPartition | src/components/weekly-summary.tsx:46-52 | every task is in exactly its own category's group |
| WeeklySummary.CategoryProgress | src/components/weekly-summary.tsx:123-140 | the completed count never exceeds the group size |
| TaskCard.JsRem | src/components/task-card.tsx:60 | JavaScript `%`: the remainder takes the dividend's sign |
| TaskCard.DisplayHour | src/components/task-card.tsx:60 | `hour % 12 \|\| 12`: 12 for `NaN`; 1..12 for hours of the day |
| TaskCard.TwelveHourRoundTrip | src/components/task-card.tsx:58-60 | every hour 0..23 reads back from its 12-hour label and AM/PM |
| TaskCard.FormatTime | src/components/task-card.tsx:54-63 | empty iff there is no time text |
| TaskCard.MinutesPassThrough | src/components/task-card.tsx:54-63 | the minutes text appears unchanged; the hour part alone decides the label |
| TaskCard.TagChips | src/components/task-card.tsx:148-170 | the first two tags, and a `+n` chip iff there are more than two |
| TaskCard.SubtaskProgress | src/components/task-card.tsx:185-190 | shown iff there are subtasks; done ≤ total; all done iff every subtask is completed |
| Strings.Trim | src/pages/login.tsx:53 | a slice of the text with only white space cut before and after it, and no white space at either end |
| Strings.Utf16Length | src/pages/login.tsx:95 | JavaScript `length`: between one and two code units per character, one each when no character is above U+FFFF |
| Strings.BlankIffTrimmedEmpty | src/pages/login.tsx:53 | the text trims to empty iff it is all white space |
| Strings.IntOr | src/pages/task-detail.tsx:192 | `parseInt(value) \|\| fallback`: the fallback for `NaN` and 0, otherwise the number |
| Strings.ParseIntToString | src/pages/task-detail.tsx:192 | parsing a number's text gives the number back |
| Strings.ParseDigits | src/components/task-card.tsx:58 | a digit string parses to its decimal value |
| Strings.ParseSignedDigits | src/components/task-card.tsx:58 | a minus sign before digits parses to the negated value |
| Strings.NatToString | src/components/focus-timer.tsx:34 | decimal digits whose value is the number |
| Strings.PadTwo | src/components/focus-timer.tsx:34 | `padStart(2, '0')`: zeros in front up to two characters |
| Strings.PadTwoDigits | src/components/focus-timer.tsx:34 | below 100, exactly the two decimal digits |
| Strings.ToLower | src/context/auth-context.tsx:46 | same length, lower-cased character by character |
| Strings.Split | src/components/task-card.tsx:57 | at least one piece, none holding the separator |
| Strings.SplitJoin | src/components/add-task-modal.tsx:72 | joining the pieces with the separator gives the text back |
| Strings.SplitCount | src/components/add-task-modal.tsx:72 | one more piece than separators |
| Dates.DaysInMonth | src/pages/calendar.tsx:23-25 | 28..31 days; February has 29 in leap years |
| Dates.MonthStep | src/pages/calendar.tsx:41-43 | the first of the next month is one month length after the first of this one |
| Dates.RollDays | src/pages/task-detail.tsx:77-81 | a valid date the right number of days from the first of the month |
| Dates.RollMonths | src/pages/task-detail.tsx:77-81 | a month 1..12 with the same month count from year 0 |
| Dates.Normalize | src/pages/task-detail.tsx:77-81 | `new Date(y, m - 1, d)`: a valid date `d - 1` days after the first of the rolled month |
| Dates.NormalizeValid | src/pages/task-detail.tsx:77-85 | a date already in range is its own normal form |
| Dates.AddDays | src/context/task-context.tsx:132 | a valid date exactly `k` days later |
| Dates.AddMonths | src/context/task-context.tsx:138 | a valid date, the same day-of-month counted from the first of the month `k` months on |
| Dates.AddMonthsKeepsDay | src/context/task-context.tsx:138 | when the day fits the target month, the date is that day of that month |
| Dates.ParseClock | src/components/add-task-modal.tsx:60 | an `HH:MM` text gives an offset within the day |
| Dates.ParseClockText | src/components/add-task-modal.tsx:60 | a formatted hour and minute read back exactly |
| Dates.DateTimeInstant | src/components/add-task-modal.tsx:60 | valid iff the date and time are; then the start of the day plus the time |

## Left out

- Persistence: reading and writing `localStorage` and the JSON encoding. The saved task list and the stored auth values are parameters, and `AuthStore` keeps the two stored keys as fields.
- Sample data: the seed tasks are a parameter, and their generator is not part of this model.
- Notifications, navigation and presentation: toasts, `history` moves, animations, modals opening and closing, icons and colours.
- Delays and intervals:
  - the 800 ms and 1000 ms simulated waits;
  - the one-minute reminder interval (`Store.CheckReminders` is one run of it);
  - the 500 ms delay before a recurring task is created (`Store.ToggleTaskStatus` returns the tasks to pass to `Store.CreateRecurringTask`);
  - the timer's notification sound.
- Time zones: every date and instant is UTC. In a zone east of UTC, `toISOString().split('T')[0]` on a local midnight gives the previous day; that shift is not modelled.
- Formatting with `Intl` and `toLocaleDateString`: the long due-date text, the week range and the month heading.
- The range of JavaScript `Date`: dates are unbounded here.
- Floating point: the completion rate and the timer progress are computed exactly (integer round-half-up, and `real`).
- `toLowerCase` beyond ASCII letters.
- `parseInt` without a radix: its `0x` hexadecimal prefix is not modelled, and digits are read in base 10.
- Time texts other than `HH:MM` (for example with seconds): these give an invalid date-time here.
- Due dates that are not calendar dates are `Date` records for which `ValidDate` is false; arbitrary date strings are not parsed.
- The login handler's `catch` branch is never reached, because `login` does not throw. It is not modelled.
- TaskDetail.EditForm.Resync: the effect runs whenever the stored task changes. `EditForm.ToggleStatus` runs it; after a save or a reminder scan the caller runs it.
- TaskDetail.EditForm.Save: models the corrected save, which sends every key; the save as written, which keeps a removed recurrence or reminder, is stated by `SaveAsWrittenKeepsRemovedRecurrence` and `SaveAsWrittenKeepsRemovedReminder`.
- LoginPage.LoginForm.HandleRegister: models the corrected registration without the failure message; the page as written is `RegisterAsWritten`.
- Calendar.CalendarPage.ShowPreviousMonth: models the corrected move through `ShiftMonth`; as written, `setMonth` rolls an overflowing day into the next month (`ShiftMonthAsWritten`, `MonthButtonsSkipOrStay`).
- Calendar.CalendarPage.ShowNextMonth: the same; as written, January 31 goes to March 3.
- The tasks page's filter and category handlers are plain setters and have no members.
- The week view's today highlight is a date comparison and has no member.
- FocusTimer.Timer.Tick: the interval callback reads the `mode` of the render that started it. An interval never outlives its phase (it is cleared when the count ends), so that is the current mode, and the model uses it directly.
- TaskCard.FormatTime: its own contract says only when the text is empty. `TaskCard.MinutesPassThrough` states the text for times with exactly one colon and a non-empty hour part. The `undefined` minutes for a text with no colon are modelled but not stated.
- FocusTimer.FormatTimeRoundTrip: stated below 100 minutes; the timer never shows more than 25.
- Calendar.WeekIsSundayToSaturday: stated in day numbers and weekdays, not as calendar dates.

## Findings

| source | as written | input that shows it | evidently intended | confidence | as-written member | corrected member |
|---|---|---|---|---|---|---|
| src/pages/task-detail.tsx:164-172 | choosing no recurrence removes the key by rest-destructuring; the save passes that object to `updateTask`, whose spread keeps the stored recurrence | a task with a daily recurrence: choose none, then save | the saved task has no recurrence | not executed | TaskDetail.SaveAsWrittenKeepsRemovedRecurrence | TaskDetail.EditForm.Save |
| src/pages/task-detail.tsx:224-230 | switching the reminder off removes the key in the same way, so saving keeps the stored reminder | a task with a reminder: switch it off, then save | the saved task has no reminder | not executed | TaskDetail.SaveAsWrittenKeepsRemovedReminder | TaskDetail.EditForm.Save |
| src/pages/task-detail.tsx:174-180 | the chosen type is written before the spread of the existing recurrence, whose own `type` overrides it | a task repeating daily: choose weekly | the task repeats weekly | not executed | TaskDetail.SwitchingTypeKeepsOldType | TaskDetail.RecurrenceTypeSet |
| src/pages/login.tsx:123 | the success path calls `addToast`, which the page never imports; the `ReferenceError` is caught after the form was cleared, and the failure message is shown | register `newuser`, `new@example.com`, `password1`, `password1` | the form is cleared with no error | not executed | LoginPage.RegisterAsWrittenReportsFailure | LoginPage.LoginForm.HandleRegister |
| src/pages/calendar.tsx:95-109 | `setMonth(getMonth() ± 1)` keeps the day-of-month and rolls an overflow into the following month | shown date January 31: next gives March 3 (March 2 in a leap year); from March 31, previous stays in March | the calendar moves exactly one month | not executed | Calendar.MonthButtonsSkipOrStay | Calendar.ShiftMonth |
