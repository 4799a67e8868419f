# GTD task manager — verified model of its core logic

This project models the core of a small "Getting Things Done" web app. In the app, a user types a task into an add form. The task goes to the inbox, or a five-step classification wizard files it. The wizard asks: does it need action, is it a single action, can it be done in three minutes (a timer then runs), and does it have a date (a month calendar then opens). The answer files the task as *waiting for*, *project*, *next action*, *calendar* (with an end-of-day due date) or *inbox, done*. A task-list hook keeps the displayed list, added to by the user's own adds and by the backend's create subscription. The screen splits that list into five open category columns and a completed column. An existing task can be re-entered into the wizard, which adds its reclassified copy and deletes the original.

Modules, one per file:

- `Options` (`options.dfy`): `Option` and `Result`.
- `Digits` (`digits.dfy`): decimal text of naturals, `padStart` with zeros, and `Number(...)` of a digit string, with their read-back lemmas.
- `Text` (`text.dfy`): `trim` over the whitespace and line-terminator characters of ECMAScript, and the blank test.
- `Seqs` (`seqs.dfy`): `filter` and `reverse` on sequences.
- `TodoTypes` (`todo_types.dfy`): the `Category` enumeration, `Todo`, `PartialTodo`, and `convertGraphQLTodo`.
- `Calendar` (`calendar.dfy`): month lengths and weekdays, the 42-cell month grid, `YYYY-MM-DD` strings and their parsing, the end-of-day due date and its ISO text, and the month arrows.
- `Wizard` (`wizard.dfy`): the classification wizard. It is a state machine written as pure transition functions, plus the `GTDModal` class whose handlers update the state fields in place and record the `onSubmit`/`onClose` calls.
- `Timer` (`timer.dfy`): the countdown as transition functions, the `CountdownTimer` class, and `formatTime`.
- `UseTodo` (`use_todo.dfy`): the task-list hook. Its state is `todoList` plus the set of recently added ids. There is one function per action and a `TodoStore` class whose methods update the list and the set in place. The backend is a set of function parameters that return the stored row or an error.
- `App` (`app.dfy`): the columns, the wizard's initial task, and the modal's submit and close handlers, in the `AppScreen` class.
- `TodoAdd` (`todo_add.dfy`): the add form, in the `TodoAddForm` class.

Each class method is proved to leave its object in the state a pure function of the old state describes. The properties are proved about those functions.

Two defects in the source are recorded under "## Findings". Both are modelled as written and then corrected. The rest of the model uses the corrected versions.

Three further consequences of the code as written are proved as lemmas. They are not treated as defects:

- The wizard's "done in three minutes" outcome asks for `done = true`. But the object that `addTodoListItem` sends is always `done: false`, so such a task lands in the inbox as an open task (`App.TimerCompletionStoredOpen`).
- A subscription echo of one's own add is shown twice in two cases: when it arrives after the five-second expiry of the recent-id set, or before the add's response (`UseTodo.EchoAfterExpiryDuplicates`, `UseTodo.EchoBeforeResponseDuplicates`).
- `handleModalSubmit` closes the modal only when every request succeeded (`App.ModalSubmit`). However, the wizard calls `onClose` right after `onSubmit` without awaiting it (`Wizard.Finish`), so in the running app the modal closes on failure too.

The calendar's header starts on Monday, so the 1st of a month belongs in column `firstDayOfWeek - 1`, after that many cells of the previous month. The loop `for (let i = firstDayOfWeek - 1; i >= 0; i--)` pushes `firstDayOfWeek` cells, so every day sits one column to the right of its weekday. `Calendar.GetDaysInMonthAsWritten` models the loop as written, and the corrected `Calendar.GetDaysInMonth` has `firstDayOfWeek - 1` leading cells; the first row under "## Findings" records it.

## Model

| member | source | states |
|---|---|---|
| TodoTypes.CategoryIndex | src/types/Todo.ts:5 | every category has a position among the five listed values, and no two positions hold the same value, so there are exactly five categories |
| TodoTypes.OrNull | src/types/Todo.ts:38-41 | the `or null` fallback gives null exactly when the field is absent or empty, and otherwise keeps the value |
| TodoTypes.ConvertGraphQLTodo | src/types/Todo.ts:30-42 | a null item is an error; otherwise id, content, done and category are copied, each optional field is null exactly when absent or empty and kept otherwise, and the result never holds an empty optional field |
| TodoTypes.ConversionFixedPoints | src/types/Todo.ts:33-42 | converting a task's own row gives it back exactly when none of its optional fields is the empty string |
| TodoTypes.ConversionIdempotent | src/types/Todo.ts:33-42 | converting an already converted task changes nothing |
| Text.TrimStart | src/components/TodoAdd.tsx:19 | the result is a suffix of the input, what it drops is all whitespace, and it does not start with whitespace |
| Text.TrimEnd | src/components/TodoAdd.tsx:19 | the result is a prefix of the input, what it drops is all whitespace, and it does not end with whitespace |
| Text.Trim | src/components/TodoAdd.tsx:19 | `trim()` is the stretch of the text that starts where `trimStart` leaves off; what lies before and after it is whitespace only, and when not empty it neither starts nor ends with whitespace |
| Text.TrimEmptyIffBlank | src/components/TodoAdd.tsx:19 | `trim()` gives the empty string exactly when the text is whitespace only |
| Digits.NatToString | src/components/GTDModal.tsx:231 | the decimal text of a natural is a non-empty digit string without a leading zero |
| Digits.NatToStringRoundTrip | src/components/GTDModal.tsx:34 | reading the decimal text back gives the number |
| Digits.JsNumber | src/components/GTDModal.tsx:34 | on unsigned decimal text, `Number(part)` is the value the digits spell, and the empty part is 0; other text is taken as `NaN` |
| Digits.PadStart | src/components/GTDModal.tsx:231 | `padStart(width, '0')` is the text preceded by as many zeros as bring it to the width, and is never shorter than the text |
| Digits.Padded | src/components/Timer.tsx:40 | `String(n).padStart(width, '0')` is as long as the width, or as the decimal text of n when that is longer |
| Digits.PaddedReadsBack | src/components/Timer.tsx:40 | a number below 10^width padded to width is exactly width digits that read back as the number |
| Digits.PaddedIsPlain | src/components/GTDModal.tsx:231 | padding a number that already has width digits adds nothing |
| Seqs.Filter | src/hooks/useTodo.tsx:84 | `filter` keeps each element satisfying the predicate exactly as often as it occurs, and nothing else |
| Seqs.FilterAppend | src/components/App.tsx:33-40 | filtering a concatenation concatenates the filtered parts, so the kept elements stay in order |
| Seqs.FilterLength | src/hooks/useTodo.tsx:84 | the filtered length is the number of elements satisfying the predicate |
| Seqs.Reverse | src/hooks/useTodo.tsx:19 | `reverse` has the same length and puts element i at position length-1-i |
| Calendar.DaysInMonth | src/components/GTDModal.tsx:115 | `lastDay.getDate()` is 28 exactly for February of a common year, 29 exactly for February of a leap year, 30 exactly for April, June, September and November, and 31 otherwise |
| Calendar.PrevMonthOf | src/components/GTDModal.tsx:122 | the month before, with the year rolling back after January |
| Calendar.NextMonthOf | src/components/GTDModal.tsx:141 | the month after, with the year rolling over after December |
| Calendar.PrevUndoesNext | src/components/GTDModal.tsx:206-215 | going one month forward and one back returns to the same month |
| Calendar.Weekday | src/components/GTDModal.tsx:118 | `getDay()` is a weekday number 0..6 |
| Calendar.WeekdayAdvances | src/components/GTDModal.tsx:130-136 | within a month, day d falls d-1 weekdays after the 1st |
| Calendar.WeekdayNextMonth | src/components/GTDModal.tsx:118 | the 1st of the next month falls as many weekdays after the 1st of this month as this month has days, across the turn of the year and in leap years |
| Calendar.WeekdayAnchors | src/components/GTDModal.tsx:118 | 1 January 1970 is a Thursday (4) and 1 January 2000 a Saturday (6), as `getDay()` reports them |
| Calendar.YearBaseStep | src/components/GTDModal.tsx:118 | in the weekday formula a year moves the weekday on by one, and by two when it is a leap year |
| Calendar.MondayColumn | src/components/GTDModal.tsx:223 | the column of a weekday in the Monday-first header: Monday is column 0 and Sunday column 6 |
| Calendar.FirstDayOfWeek | src/components/GTDModal.tsx:118 | the weekday of the 1st with Sunday counted as 7 is 1..7 and agrees with the weekday of the 1st modulo 7 |
| Calendar.FillGrid | src/components/GTDModal.tsx:117-148 | the three push loops yield 42 cells: the last `lead` days of the previous month, then days 1..n of this month (the only cells flagged current), then days 1, 2, ... of the next month |
| Calendar.GetDaysInMonthAsWritten | src/components/GTDModal.tsx:111-149 | the grid as written is 42 cells led by `firstDayOfWeek` (1..7) previous-month cells |
| Calendar.AsWrittenGridShiftsFirst | src/components/GTDModal.tsx:121-127 | in the grid as written, the 1st sits one column to the right of its weekday's column, in every month |
| Calendar.AsWrittenSeptember2025 | src/components/GTDModal.tsx:121-127 | September 2025 starts on a Monday, but the grid as written opens with 31 August and puts the 1st under Tuesday |
| Calendar.GetDaysInMonth | src/components/GTDModal.tsx:111-149 | the corrected grid has 42 cells led by `firstDayOfWeek - 1` (0..6) previous-month cells, with every day of the month under its own weekday |
| Calendar.GridColumn | src/components/GTDModal.tsx:223-229 | with `firstDayOfWeek - 1` leading cells, day d lands in the column of its weekday |
| Calendar.SplitNumbers | src/components/GTDModal.tsx:34 | `split('-').map(Number)` read left to right always yields at least one number, `NaN` included |
| Calendar.SplitNumbersPart | src/components/GTDModal.tsx:34 | characters without a separator, appended after a separator, form one more part whose value is `Number` of those characters |
| Calendar.SplitNumbersIsSplitMap | src/components/GTDModal.tsx:34 | text without a separator is one part read by `Number`, and a separator followed by such text adds exactly one part to the split of what precedes it |
| Calendar.ParseDateString | src/components/GTDModal.tsx:34 | the destructured `[year, month, day]` is a date exactly when the split has at least three parts and none of the first three is `NaN`, and then they are that date |
| Calendar.ParseOfDigits | src/components/GTDModal.tsx:34 | three digit strings joined by `-` read back as the year, month and day they spell |
| Calendar.DateStringRoundTrip | src/components/GTDModal.tsx:34-37 | splitting a grid cell's `YYYY-MM-DD` string and reading the numbers gives back that cell's year, month and day |
| Calendar.EndOfDay | src/components/GTDModal.tsx:37-40 | the due moment is the selected day at 23:59:59.999 |
| Calendar.FormatDateString | src/components/GTDModal.tsx:231 | a cell's date string for a valid date is ten characters with `-` at positions 4 and 7 |
| Calendar.DueDateText | src/components/GTDModal.tsx:37-45 | the due date's ISO text is the day's own `YYYY-MM-DD` followed by `T23:59:59.999Z` |
| Calendar.IsoString | src/components/GTDModal.tsx:45 | `toISOString()` ends in `Z` and, when every field fits its width (years 0..9999), is 24 characters long |
| Calendar.IsoStringOfPlainYear | src/components/GTDModal.tsx:45 | for years 0..9999 the ISO text starts with the four-digit year |
| Calendar.SetMonthKeepingDay | src/components/GTDModal.tsx:206 | `setMonth` gives the target month on the same day when that month has it; otherwise it runs into the month after, on the day that is left over (1..3) once the target month's days are used up |
| Calendar.PreviousMonthAsWritten | src/components/GTDModal.tsx:206 | the previous-month arrow as written shows the month before on the same day when it has that day, and otherwise stays in the same month on an earlier day |
| Calendar.NextMonthAsWritten | src/components/GTDModal.tsx:215 | the next-month arrow as written shows the month after on the same day when it has that day, and otherwise lands two months on, on an earlier day |
| Calendar.MonthButtonsAsWrittenMisstep | src/components/GTDModal.tsx:205-218 | on 31 March the previous-month arrow shows March again, and on 31 January the next-month arrow skips February |
| Calendar.ShowMonth | src/components/GTDModal.tsx:206 | the corrected move lands in the target month with the day kept, or clamped to that month's last day |
| Calendar.PreviousMonth | src/components/GTDModal.tsx:206 | the corrected previous-month arrow always shows the month before, on a real day |
| Calendar.NextMonth | src/components/GTDModal.tsx:215 | the corrected next-month arrow always shows the month after, on a real day |
| Wizard.Init | src/components/GTDModal.tsx:23-27 | the wizard opens at step 1 without the timer or a selected date, on the initial task, or an empty one when none is given |
| Wizard.Reset | src/components/GTDModal.tsx:103-106 | the reset goes back to step 1 with an empty task and no timer, and keeps the selected date |
| Wizard.FinalClose | src/components/GTDModal.tsx:103-108 | closing resets the wizard and calls `onClose` once |
| Wizard.Finish | src/components/GTDModal.tsx:74-75 | a terminal answer calls `onSubmit` then `onClose`, and resets |
| Wizard.Yes | src/components/GTDModal.tsx:51-69 | yes moves steps 1→2, 2→3 and 4→5, changing only the step; at 3 it goes to 4 and starts the timer; at any other step it does nothing; it never calls back |
| Wizard.NoCategory | src/components/GTDModal.tsx:71-91 | "no" files a task only at steps 1, 2 and 4 |
| Wizard.No | src/components/GTDModal.tsx:71-91 | no at steps 1, 2 and 4 submits the task once, as WaitingFor, Project or NextAction, then closes and resets; at 3 it goes to step 4 without the timer |
| Wizard.TimerComplete | src/components/GTDModal.tsx:93-96 | the timer's completion submits the task to the inbox with `done = true`, then closes and resets |
| Wizard.TimerCancel | src/components/GTDModal.tsx:98-101 | cancelling the timer hides it and stays at step 4, with no callback |
| Wizard.Back | src/components/GTDModal.tsx:259-260 | "back" on the date step returns to step 4 and changes nothing else |
| Wizard.PickDate | src/components/GTDModal.tsx:243 | a grid click stores the day's date string, which parses back to that day |
| Wizard.DateSubmit | src/components/GTDModal.tsx:31-49 | with no selected date nothing happens; with one that denotes a real day the task is submitted as Calendar, due at the end of that day, then closed and reset |
| Wizard.PickThenConfirm | src/components/GTDModal.tsx:31-49 | picking a day and confirming submits the task as Calendar, due at that day's `YYYY-MM-DD` followed by `T23:59:59.999Z` |
| Wizard.Step | src/components/GTDModal.tsx:294-346 | any event keeps the invariant (step 1..5, timer only at step 4); it emits nothing, a close, or one submission carrying the task's content, project and waiting-for text followed by a close, after which the wizard is reset |
| Wizard.Enabled | src/components/GTDModal.tsx:282-346 | close is always offered; while the timer shows only the timer's complete and cancel and close are offered; yes and no appear on steps 1..4 and the date controls only on step 5 |
| Wizard.RunKeepsValid | src/components/GTDModal.tsx:22-108 | the invariant holds after any sequence of events |
| Wizard.RunWithConcat | src/components/GTDModal.tsx:22-108 | for any handler, running two event sequences one after the other is running their concatenation, with the callbacks in order |
| Wizard.RunFacts | src/components/GTDModal.tsx:42-108 | along any run every submission is directly followed by a close, the task is untouched until the first close, and every submission before it carries the content the wizard opened with |
| Wizard.RunConcat | src/components/GTDModal.tsx:22-108 | running two event sequences one after the other is running their concatenation |
| Wizard.NoAtFirstStep | src/components/GTDModal.tsx:73-75 | "no" at once files the task as WaitingFor |
| Wizard.YesNo | src/components/GTDModal.tsx:51-79 | yes then no files the task as a Project |
| Wizard.QuickTaskDoneByTimer | src/components/GTDModal.tsx:51-96 | three yeses and the timer running out file the task in the inbox, done |
| Wizard.TimerCancelledThenNextAction | src/components/GTDModal.tsx:84-101 | cancelling the timer and answering no files the task as a NextAction |
| Wizard.DateQuestionReached | src/components/GTDModal.tsx:51-91 | yes, yes, no, yes reaches the date step with the task unchanged and nothing emitted |
| Wizard.LongTaskWithDate | src/components/GTDModal.tsx:31-91 | yes, yes, no, yes, a pick and a confirm file the task as Calendar, due at the picked day's end |
| Wizard.PickAndConfirmSteps | src/components/GTDModal.tsx:243-266 | at the date step, the events "pick" and "confirm" are the two handlers one after the other |
| Wizard.GTDModal.constructor | src/components/GTDModal.tsx:23-27 | the component mounts in the initial state showing today's month, with no callback made |
| Wizard.GTDModal.HandleFinalClose | src/components/GTDModal.tsx:103-108 | the fields become `FinalClose` of the old state, and `onClose` is recorded |
| Wizard.GTDModal.HandleYes | src/components/GTDModal.tsx:51-69 | the fields become `Yes` of the old state, with no callback |
| Wizard.GTDModal.HandleNo | src/components/GTDModal.tsx:71-91 | the fields become `No` of the old state, and its callbacks are recorded in order |
| Wizard.GTDModal.HandleTimerComplete | src/components/GTDModal.tsx:93-96 | the fields become `TimerComplete` of the old state, and its callbacks are recorded |
| Wizard.GTDModal.HandleTimerCancel | src/components/GTDModal.tsx:98-101 | the fields become `TimerCancel` of the old state |
| Wizard.GTDModal.HandleBack | src/components/GTDModal.tsx:259-260 | the fields become `Back` of the old state |
| Wizard.GTDModal.HandleDatePick | src/components/GTDModal.tsx:243 | the fields become `PickDate` of the old state |
| Wizard.GTDModal.HandleDateSubmit | src/components/GTDModal.tsx:31-49 | the fields become `DateSubmit` of the old state, and its callbacks are recorded |
| Wizard.GTDModal.HandlePreviousMonth | src/components/GTDModal.tsx:206 | the shown month becomes the corrected previous month; nothing else changes |
| Wizard.GTDModal.HandleNextMonth | src/components/GTDModal.tsx:215 | the shown month becomes the corrected next month; nothing else changes |
| Wizard.GTDModal.VisibleDays | src/components/GTDModal.tsx:229 | the calendar shows the corrected grid of the shown month |
| Timer.Started | src/components/Timer.tsx:17-18 | the timer starts at `initialSeconds`, running, with no callback made |
| Timer.Tick | src/components/Timer.tsx:24-31 | a tick maps s to s-1 when s > 1; otherwise it maps s to 0, stops the interval and calls `onComplete` once; after a tick `seconds` is never negative; with no live interval nothing happens |
| Timer.TogglePause | src/components/Timer.tsx:106 | the pause button flips `isRunning`, and an interval is live exactly when it runs; the seconds and calls are kept |
| Timer.Cancel | src/components/Timer.tsx:122-124 | cancel only calls `onCancel`, and never completes |
| Timer.Ticks | src/components/Timer.tsx:23-32 | the invariant (an interval is live only while running) survives any number of ticks |
| Timer.CountsDown | src/components/Timer.tsx:24-31 | before the end, k ticks take k seconds off and call nothing |
| Timer.CompletesOnce | src/components/Timer.tsx:24-31 | once enough ticks have fired, the counter rests at 0 and `onComplete` has been called exactly once, however many more ticks come |
| Timer.Frozen | src/components/Timer.tsx:21 | while paused, or after completion, ticks change nothing |
| Timer.ThreeMinuteRun | src/components/GTDModal.tsx:296 | the wizard's 180-second timer shows 1 after 179 ticks without completing, and completes once at the 180th |
| Timer.PauseResume | src/components/Timer.tsx:106 | pausing and resuming keeps the remaining seconds and restarts the interval, and no tick fires while paused |
| Timer.FormatTime | src/components/Timer.tsx:37-41 | `formatTime(t)` is a minutes field, a colon and exactly two seconds digits; seconds are below 60 and minutes×60 + seconds = t |
| Timer.ThreeMinutesShown | src/components/Timer.tsx:37-41 | 180 seconds is shown as `3:00` |
| Timer.CountdownTimer.constructor | src/components/Timer.tsx:17-18 | the component mounts in the started state |
| Timer.CountdownTimer.HandleTick | src/components/Timer.tsx:23-32 | the fields become `Tick` of the old state |
| Timer.CountdownTimer.HandlePauseClick | src/components/Timer.tsx:106 | the fields become `TogglePause` of the old state |
| Timer.CountdownTimer.HandleCancelClick | src/components/Timer.tsx:123 | the fields become `Cancel` of the old state |
| Timer.CountdownTimer.Display | src/components/Timer.tsx:98 | the ring shows `formatTime(seconds)` |
| UseTodo.NewTodo | src/hooks/useTodo.tsx:56-64 | the built task has the fresh id, the given content and optional fields, `done = false` whatever was asked, and the given category or Inbox |
| UseTodo.ReplaceById | src/hooks/useTodo.tsx:45-47 | the `map` keeps the length, puts the returned task at every position holding its id, and leaves every other task in place |
| UseTodo.RemoveById | src/hooks/useTodo.tsx:84 | the `filter` removes every task with that id and keeps every other task as often as it occurred |
| UseTodo.Loaded | src/hooks/useTodo.tsx:17-20 | the initial load shows the fetched rows in reverse order |
| UseTodo.Echo | src/hooks/useTodo.tsx:25-32 | an event whose id is recent removes that id and leaves the list alone; any other event is put at the front |
| UseTodo.AfterAdd | src/hooks/useTodo.tsx:66-68 | a successful add puts the stored task at the front and its id into the recent set; a failure changes nothing |
| UseTodo.AfterToggle | src/hooks/useTodo.tsx:42-51 | a successful toggle replaces the tasks with the returned task's id; a failure is swallowed and changes nothing |
| UseTodo.AfterDelete | src/hooks/useTodo.tsx:81-90 | a successful delete removes the tasks with that id; a failure changes nothing |
| UseTodo.Expired | src/hooks/useTodo.tsx:70-72 | the five-second timer removes exactly that id from the recent set |
| UseTodo.CleanedUp | src/hooks/useTodo.tsx:35-38 | the cleanup empties the recent set and keeps the list |
| UseTodo.ReplaceKeepsIds | src/hooks/useTodo.tsx:45-47 | the toggle never changes which id sits at which position |
| UseTodo.RemoveKeepsOrder | src/hooks/useTodo.tsx:84 | removal distributes over concatenation, so the survivors keep their relative order |
| UseTodo.RemoveLength | src/hooks/useTodo.tsx:84 | removal takes out exactly the tasks with that id |
| UseTodo.RemoveAbsent | src/hooks/useTodo.tsx:84 | removing an id the list does not hold changes nothing |
| UseTodo.AddDeleteCommute | src/hooks/useTodo.tsx:66-85 | adding a task and deleting another id give the same state in either order |
| UseTodo.EchoSuppressed | src/hooks/useTodo.tsx:25-32 | after one's own add and its echo, the task is shown once and its id has left the recent set |
| UseTodo.EchoAfterExpiryDuplicates | src/hooks/useTodo.tsx:70-72 | an echo that arrives after the five-second expiry shows the task twice |
| UseTodo.EchoBeforeResponseDuplicates | src/hooks/useTodo.tsx:66-68 | an echo that arrives before the add's response shows the task twice, and its id stays recent |
| UseTodo.ReentryReplacesTask | src/hooks/useTodo.tsx:66-85 | adding a task with a fresh id and deleting one that occurs once keeps the list length, removes the old id and puts the new task at the front |
| UseTodo.TodoStore.constructor | src/hooks/useTodo.tsx:12-13 | the hook starts with an empty list and an empty recent set |
| UseTodo.TodoStore.Load | src/hooks/useTodo.tsx:17-20 | the state becomes `Loaded` of the fetched rows |
| UseTodo.TodoStore.OnCreateEvent | src/hooks/useTodo.tsx:25-32 | the state becomes `Echo` of the event |
| UseTodo.TodoStore.ToggleStatus | src/hooks/useTodo.tsx:42-51 | the backend is asked for `done = !done`, and the state becomes `AfterToggle` of its answer |
| UseTodo.TodoStore.AddItem | src/hooks/useTodo.tsx:54-79 | the backend gets `NewTodo`; its answer is returned, a failure rethrown, and the state becomes `AfterAdd` of it |
| UseTodo.TodoStore.ExpireRecent | src/hooks/useTodo.tsx:70-72 | the state becomes `Expired` of that id |
| UseTodo.TodoStore.DeleteItem | src/hooks/useTodo.tsx:81-90 | on success the id is returned, on failure the error is rethrown, and the state becomes `AfterDelete` |
| UseTodo.TodoStore.Cleanup | src/hooks/useTodo.tsx:35-38 | the state becomes `CleanedUp` |
| App.CategoryLists | src/components/App.tsx:33-40 | each category column holds exactly the open tasks of its category, and the completed column exactly the done ones, each as often as in the list |
| App.ColumnsPartition | src/components/App.tsx:33-40 | the six columns together hold exactly the list: nothing is lost and nothing is shown twice |
| App.ColumnsKeepOrder | src/components/App.tsx:33-40 | each column keeps list order: the columns of a concatenation are the concatenated columns |
| App.InitialTodoFor | src/components/App.tsx:196-202 | typed text opens the wizard on an inbox task; else a selected task's content and category; else nothing |
| App.SubmittedContent | src/components/App.tsx:60-63 | a selected task's non-empty content wins over the submitted content |
| App.ReenterWorkflow | src/components/App.tsx:42-45 | re-entry opens the modal on the task, and with no typed text pending the wizard starts from that task's content and category |
| App.OpenGTDModal | src/components/App.tsx:47-50 | the modal opens on the typed text without touching the selection, and non-empty text starts the wizard on an Inbox task with that content, whatever is selected |
| App.OpenedByButtonOnlyAdds | src/components/App.tsx:47-74 | a wizard opened from the button on non-empty text, from a closed modal, starts on an Inbox task with that text; its submission only adds, and closes the modal exactly when the add succeeds |
| App.ModalClose | src/components/App.tsx:52-56 | the modal closes with nothing selected and no text |
| App.ModalSubmit | src/components/App.tsx:58-78 | the task is added, and with a selected task its original is also deleted; the modal closes only when every request succeeded, and otherwise the fields stay as they were |
| App.ReentrySucceeds | src/components/App.tsx:65-74 | a successful re-entry, from a closed modal, of a task the list holds once closes the modal, keeps the list length, removes the original id and shows the reclassified task first |
| App.ReentryKeepsContent | src/components/App.tsx:60-63 | a wizard opened by re-entry from a closed modal submits, until it first closes, only that task's content, so the content override keeps it |
| App.TimerCompletionStoredOpen | src/hooks/useTodo.tsx:56-64 | the timer outcome asks for `done = true`, but the task sent on add is not done and is in the inbox |
| App.AppScreen.constructor | src/components/App.tsx:26-30 | the screen starts with the modal closed, nothing selected, no text and an empty list |
| App.AppScreen.ShownColumns | src/components/App.tsx:33-40 | the columns shown are `CategoryLists` of the list |
| App.AppScreen.InitialTodo | src/components/App.tsx:196-202 | the wizard's initial task is `InitialTodoFor` of the fields |
| App.AppScreen.HandleReenterWorkflow | src/components/App.tsx:42-45 | the fields become `ReenterWorkflow` of the task |
| App.AppScreen.HandleOpenGTDModal | src/components/App.tsx:47-50 | the fields become `OpenGTDModal` of the text |
| App.AppScreen.HandleModalClose | src/components/App.tsx:52-56 | the fields become `ModalClose` |
| App.AppScreen.HandleModalSubmit | src/components/App.tsx:58-78 | the fields and the list become `ModalSubmit` of the old ones |
| TodoAdd.InboxTodo | src/components/TodoAdd.tsx:22-26 | the form's task is the text as typed, in the inbox, not done |
| TodoAdd.Changed | src/components/TodoAdd.tsx:57 | typing replaces the field's text |
| TodoAdd.Submit | src/components/TodoAdd.tsx:17-29 | whitespace-only text does nothing; any other text is sent untrimmed to the inbox, and the field is cleared |
| TodoAdd.KeyDown | src/components/TodoAdd.tsx:31-36 | Enter without Shift submits; every other key, Shift+Enter included, changes nothing |
| TodoAdd.ButtonClick | src/components/TodoAdd.tsx:38-47 | whitespace-only text does nothing; otherwise, only when a handler is supplied, the text is handed to the wizard and the field cleared; without a handler the text stays |
| TodoAdd.ButtonDisabled | src/components/TodoAdd.tsx:68 | the workflow button is disabled exactly when the text is whitespace only |
| TodoAdd.NeverSendsBlank | src/components/TodoAdd.tsx:17-47 | whatever the user types and presses, the form never sends whitespace-only text to the inbox or the wizard |
| TodoAdd.HandleKeepsNothingBlank | src/components/TodoAdd.tsx:17-47 | no single form event sends whitespace-only text |
| TodoAdd.TypeAndEnter | src/components/TodoAdd.tsx:31-36 | typing text and pressing Enter sends exactly that text unless it is blank; with Shift held nothing is sent |
| TodoAdd.TodoAddForm.constructor | src/components/TodoAdd.tsx:15 | the form starts empty, with nothing sent |
| TodoAdd.TodoAddForm.HandleChange | src/components/TodoAdd.tsx:57 | the fields become `Changed` of the new text |
| TodoAdd.TodoAddForm.HandleSubmit | src/components/TodoAdd.tsx:17-29 | the fields become `Submit` of the old ones |
| TodoAdd.TodoAddForm.HandleKeyDown | src/components/TodoAdd.tsx:31-36 | the fields become `KeyDown` of the old ones |
| TodoAdd.TodoAddForm.HandleButtonClick | src/components/TodoAdd.tsx:38-47 | the fields become `ButtonClick` of the old ones |

## Left out

- Time zones. `new Date(y, m - 1, d)` and `setHours` are local time, and `toISOString` is UTC. The model takes the offset as zero, so a due date's ISO text carries the selected day itself.
- JavaScript `Date` arithmetic outside what the components use:
  - Date strings are modelled for years 1000..9999 only. Two-digit years map to 19xx, and ISO years beyond 9999 use six digits.
  - The normalisation of invalid `new Date(...)` arguments is not modelled.
  - Only the `setMonth` day overflow of the month arrows is modelled.
  - Weekdays use the proleptic Gregorian calendar.
- Digits.JsNumber: models `Number` on unsigned decimal digit text only. Signs, decimal points, exponents, hexadecimal prefixes and surrounding whitespace, which JavaScript also reads as numbers, are taken as `NaN`. The only text it reads is a part of a grid cell's `YYYY-MM-DD` string, which holds digits alone.
- Wizard.DateSubmit: a selected date string that does not read back as a real day is modelled as changing nothing. JavaScript would instead normalise a numeric but impossible date (31 February becomes early March) and throw only on a non-numeric one. Such a string never occurs: the only writer is a grid cell, and `GTDModal.Valid` keeps the selection parseable.
- Timer.FormatTime: it takes a natural number. `seconds` starts at 180 and never goes negative after a tick, so the display of negative values is left out.
- Wizard.GTDModal: `new Date()` on mount is the `today` parameter. The month heading's locale text, the today highlight, the step texts (`getStepContent`) and the progress bar's percentage are rendering only.
- Timer: `setInterval` and `clearInterval` are modelled as explicit tick events and a flag saying whether an interval is live. The effect's re-run when `onComplete` changes identity, the ring's floating-point offset and the task text are not modelled.
- Asynchrony. Each backend call and the state update after it form one atomic step. Calls that overlap are not interleaved in the model. In re-entry, the two requests of `Promise.all` are applied as add then delete, which `UseTodo.AddDeleteCommute` shows to be the same as delete then add.
- The backend is not modelled: `src/apis/todos.ts`, GraphQL and Amplify are replaced by the function parameters `create`, `update` and `remove`, and the fetched rows of the initial load are a parameter. The null filtering and the error-to-empty-list behaviour of the fetch are therefore not modelled. `subscription.unsubscribe()` and `console.error` logging are left out.
- `ulid()` is the `freshId` parameter. Its time-ordered uniqueness is not modelled.
- React's re-rendering, StrictMode double invocation, stale closures, and null versus undefined: both are `None`.
- Authentication and sign-out (`handleSignOut`, the landing page, `withAuthenticator`), the side menu, and the list and item rendering components.

## Findings

| source | as written | input that shows it | evidently intended | confidence | as-written member | corrected member |
|---|---|---|---|---|---|---|
| src/components/GTDModal.tsx:121-127 | the leading loop runs `i` from `firstDayOfWeek - 1` down to 0 inclusive, so it pushes `firstDayOfWeek` (1..7) previous-month cells, and every day lands one column right of its weekday under the Monday-first header | September 2025, whose 1st is a Monday: the grid opens with 31 August, and the 1st stands under Tuesday; a month starting on Sunday opens with a full week of the previous month | `firstDayOfWeek - 1` (0..6) leading cells, so that each day sits under its own weekday | not executed | Calendar.AsWrittenSeptember2025 | Calendar.GetDaysInMonth |
| src/components/GTDModal.tsx:205-218 | the month arrows call `setMonth(getMonth() ± 1)` on a date that keeps its day of the month, so a day the target month lacks runs over into the following month | on 31 March 2025 "previous" shows March again (3 March); on 31 January 2025 "next" shows March (3 March), skipping February | the arrows always show the month before or after | not executed | Calendar.MonthButtonsAsWrittenMisstep | Calendar.PreviousMonth |
