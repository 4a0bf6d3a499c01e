# MagicTask core in Dafny

MagicTask is a single-user task manager. A Flask server keeps tasks, subtasks
and an application-state document in one JSON file. A browser page lists the
tasks, runs a Pomodoro timer and offers a focus mode that shows one incomplete
task at a time. This project models the logic of that system. It covers the
timer object, the focus-mode cursor, the data-file operations and the
state merge, the page's pure helpers, the bridge between the timer and the
stored state, and the HTTP routes' request checks. It also proves the
properties those parts promise.

Layout, one module per file:

- `wrappers.dfy` (`Wrappers`) has `Option` and `Result`. A failed `Result` carries an HTTP status and a message.
- `json.dfy` (`Json`) has JSON values, plus JavaScript and Python truthiness and property reads.
- `text.dfy` (`Text`) has `strip()`/`trim()` on ASCII whitespace.
- `tasks.dfy` (`Tasks`) has the task and subtask records, filtering, and first-match search.
- `pomodoro.dfy` (`Pomodoro`) has the timer, in two forms:
  - each operation as a pure transition on a snapshot, returning the callbacks it fires;
  - the class `PomodoroTimer`, whose methods update the fields in place and are proved to perform those transitions.
- `pomodoro_properties.dfy` (`PomodoroProperties`) has lemmas about single operations and about whole sequences of them.
- `focus_mode.dfy` (`FocusMode`) has the focus page's snapshot and cursor as the class `FocusSession`, with lemmas about its completions.
- `task_model.dfy` (`TaskModel`) has:
  - `deep_update` as a loop method, proved equal to a recursive merge function;
  - the default state;
  - the record updates;
  - the class `DataFile`, whose methods are the module's loads-modify-save operations on the loaded document.
- `app_view.dfy` (`AppView`) has:
  - the page's time formatting, timer settings, view filters, focus entry and task form;
  - the records the timer callbacks send, and what the server's merge makes of them.
- `api_routes.dfy` (`ApiRoutes`) has the routes' acceptance rules as pure functions and the handlers as methods over `DataFile`.

Choices where the code and its comments or stated intent differ follow the code:

- The timer's constructor runs `resetTimer()` before any callback is attached. So creating a timer fires nothing.
- The interval callback completes a session on the tick after 0:00 is reached. A session of `W` minutes therefore needs `W*60+1` ticks.
- `onStateChange` never receives `'running'`. So the `active: true` the page means to persist is never written.
- `add_task` always stores `collapsed: False`, whatever the request says.
- After a work session completes, the cycle record writes `on_break: true`. The idle state change fired right after it then writes `on_break: false`. The stored flag ends up false.
- `start()` decides whether to refill a paused session using a long-break test without the `cycles > 0` guard. It then refills using the test with the guard. A break paused at the long-break length at zero cycles therefore restarts at the short-break length (`PomodoroProperties.ResumeAtZeroCyclesRefills`).
- A new task's urgency and effort defaults and a new subtask's `"New Subtask"` title are stored exactly as the code does.
- When both the stored `app_state` is `null` and the update is empty, `deep_update` returns `None`.
  - `PUT /api/state` then answers 400.
  - With a non-empty update, the same stored `null` makes the merge raise. The route catches that and answers 500.

Inputs the code takes from the environment are parameters: the current time, the new ids, the outcome of a fetch, and the request bodies.

## Model

| member | source | states |
|---|---|---|
| Text.TrimStart | magictask/app/static/js/app.js:245 | The result is a suffix of the input, and is empty or starts with a non-space |
| Text.TrimStartDropsBlank | magictask/app/static/js/app.js:245 | What the leading trim removes is all whitespace |
| Text.TrimEnd | magictask/app/routes/api_routes.py:110 | The result is a prefix of the input, and is empty or ends with a non-space |
| Text.TrimEndDropsBlank | magictask/app/routes/api_routes.py:110 | What the trailing trim removes is all whitespace |
| Text.TrimEmptyIffBlank | magictask/app/routes/api_routes.py:110 | Trimming leaves nothing exactly when the input is all whitespace |
| Text.TrimIsSlice | magictask/app/static/js/app.js:306 | The trimmed text is a contiguous slice of the input with only whitespace before and after it |
| Text.TrimProperties | magictask/app/routes/api_routes.py:127 | The trimmed text is empty exactly for blank input, and otherwise starts and ends with a non-space |
| Tasks.FirstIndex | magictask/app/models/task_model.py:66-67 | The index found is the first element that satisfies the test; None exactly when no element does |
| Tasks.Filter | magictask/app/static/js/focus_mode.js:26 | The result is no longer than the input |
| Tasks.FilterMembers | magictask/app/static/js/focus_mode.js:26 | Every kept element comes from the input and satisfies the test, and every input element that satisfies it is kept |
| Tasks.FilterCounts | magictask/app/static/js/focus_mode.js:26 | Counted with repetitions, a filter keeps every copy of a value that passes and none of one that fails |
| Tasks.FilterIsSubsequence | magictask/app/static/js/app.js:171-176 | A filter keeps the relative order of what it keeps |
| Tasks.FilterRemovesOne | magictask/app/static/js/focus_mode.js:96-97 | When exactly one element fails the test, the filter removes that one and nothing else |
| Tasks.FilterShorterIff | magictask/app/models/task_model.py:93-96 | A filter shortens the list exactly when some element fails the test (the "deleted" test of the delete operations) |
| Tasks.FindTaskAt | magictask/app/models/task_model.py:66-67 | The search returns the first task carrying the id |
| Tasks.FindTaskNone | magictask/app/models/task_model.py:84-88 | The search fails exactly when no task carries the id |
| Tasks.FindSubtaskAt | magictask/app/models/task_model.py:265-268 | The subtask search returns the first subtask carrying the id |
| Tasks.FindSubtaskNone | magictask/app/models/task_model.py:271 | The subtask search fails exactly when no subtask carries the id |
| Pomodoro.InitWellFormed | magictask/app/static/js/pomodoro.js:2-16 | A new timer satisfies the invariant: seconds below 60, counting exactly while running, time within the session, and an idle timer showing its full session |
| Pomodoro.ApplyKeepsWellFormed | magictask/app/static/js/pomodoro.js:22-124 | Every operation (start, tick, pause, reset, skip, configure) keeps that invariant |
| Pomodoro.PomodoroTimer.constructor | magictask/app/static/js/pomodoro.js:2-20 | The settings are merged over the defaults, the cycles start at `initialCycles` or 0, and the timer is idle at the full work length with no callback fired |
| Pomodoro.PomodoroTimer.Stop | magictask/app/static/js/pomodoro.js:84-87 | Clears the interval and changes nothing else |
| Pomodoro.PomodoroTimer.ResetTimer | magictask/app/static/js/pomodoro.js:22-30 | Performs the reset transition and appends its state-change and minute callbacks |
| Pomodoro.PomodoroTimer.Start | magictask/app/static/js/pomodoro.js:32-43 | Performs the start transition, including the no-op when already running and the refill test, and appends its state-change callback |
| Pomodoro.PomodoroTimer.Tick | magictask/app/static/js/pomodoro.js:45-73 | Performs one interval tick: a second off, a minute rollover, or a session completion with its three callbacks |
| Pomodoro.PomodoroTimer.Pause | magictask/app/static/js/pomodoro.js:76-82 | Performs the pause transition; nothing happens when not running |
| Pomodoro.PomodoroTimer.SkipTo | magictask/app/static/js/pomodoro.js:90-106 | Performs the skip transition and appends its two callbacks |
| Pomodoro.PomodoroTimer.Configure | magictask/app/static/js/pomodoro.js:109-124 | Pauses if running, merges the settings, and for an idle or paused timer shows the full session and fires the minute callback |
| Pomodoro.PomodoroTimer.GetTime | magictask/app/static/js/pomodoro.js:127-129 | On a valid timer the seconds shown are below 60 |
| Pomodoro.PomodoroTimer.GetState | magictask/app/static/js/pomodoro.js:131-137 | On a valid timer the reported state is 'running' exactly while the interval is set |
| PomodoroProperties.InitIsFreshWorkSession | magictask/app/static/js/pomodoro.js:2-16 | A new timer is an idle, stopped work session at the full work length with the initial cycles; with no settings it shows 25 minutes under the defaults |
| PomodoroProperties.MergeProperties | magictask/app/static/js/pomodoro.js:113 | For each of the five settings the given value wins and an absent one keeps the current value; an empty merge is the identity, and merging twice equals merging once |
| PomodoroProperties.ResetLeavesIdleWork | magictask/app/static/js/pomodoro.js:22-30 | Reset leaves a stopped, idle work session at the work length with the cycle count and configuration kept |
| PomodoroProperties.TickCountsDown | magictask/app/static/js/pomodoro.js:46-50 | With time left, a tick takes exactly one second off and fires one minute callback observed as running |
| PomodoroProperties.TickCompletesSession | magictask/app/static/js/pomodoro.js:51-69 | At 0:00 a tick switches the session kind and stops idle. A finished work session adds a cycle and starts a break that is long exactly when the new count is due; a finished break keeps the count |
| PomodoroProperties.CompletionOnlyAtZero | magictask/app/static/js/pomodoro.js:46-58 | A tick fires the cycle callback and switches the session kind exactly when no time is left |
| PomodoroProperties.CyclesChangeOnlyOnWorkCompletion | magictask/app/static/js/pomodoro.js:55 | No operation changes the cycle count except a completing work session, which adds one |
| PomodoroProperties.RunKeepsInvariant | magictask/app/static/js/pomodoro.js:22-124 | Over any sequence of operations the invariant holds and the cycle count never decreases |
| PomodoroProperties.NoStateChangeReportsRunning | magictask/app/static/js/pomodoro.js:28 | Over any sequence of operations the state-change callback receives only 'idle', 'paused', 'work' or 'break' |
| PomodoroProperties.StartWhileRunningIsNoop | magictask/app/static/js/pomodoro.js:33 | Start on a running timer changes nothing and fires nothing |
| PomodoroProperties.StartFromIdle | magictask/app/static/js/pomodoro.js:35-43 | Start from idle runs the full session, and the callback reports 'work' or 'break' rather than the stored 'running' |
| PomodoroProperties.ResumeTestDiffers | magictask/app/static/js/pomodoro.js:35-38 | The refill test's length differs from the refill length exactly for a break at zero cycles with distinct break lengths and a non-zero long-break interval |
| PomodoroProperties.StartFromPaused | magictask/app/static/js/pomodoro.js:35-42 | Starting a paused timer keeps its time exactly unless it sits at the refill test's length, at 0 seconds, where that length is not the session's |
| PomodoroProperties.PauseKeepsTime | magictask/app/static/js/pomodoro.js:76-82 | Pause does nothing when stopped; otherwise it stops and fires one 'paused' callback, with time, cycles and session kind kept |
| PomodoroProperties.PauseThenStartResumes | magictask/app/static/js/pomodoro.js:32-82 | Outside that one case, pausing and starting again restores the running timer exactly |
| PomodoroProperties.SkipToProperties | magictask/app/static/js/pomodoro.js:90-106 | Skip stops the timer idle at the full session of the requested kind ('work' or anything else for a break), with the cycles kept |
| PomodoroProperties.ConfigureResets | magictask/app/static/js/pomodoro.js:109-124 | Configure always leaves the timer stopped at the full session under the merged settings, with cycles and session kind kept |
| PomodoroProperties.CountDown | magictask/app/static/js/pomodoro.js:45-50 | Up to the remaining time, `k` ticks take `k` seconds off and change nothing else |
| PomodoroProperties.SessionCompletes | magictask/app/static/js/pomodoro.js:45-69 | A running session is still running at 0:00 after `Remaining` ticks and has completed after one more |
| PomodoroProperties.LongBreakOnFourthCycle | magictask/app/static/js/pomodoro.js:55-57 | With 3 cycles done, a 25-minute work session ends after 1501 ticks in a 15-minute long break with 4 cycles |
| PomodoroProperties.ResumeAtZeroCyclesRefills | magictask/app/static/js/pomodoro.js:35-38 | A break at zero cycles paused at 15:00 with a 15-minute long break resumes at the 20-minute break length |
| FocusMode.ResolveSelectionCases | magictask/app/static/js/focus_mode.js:29-39 | A falsy selection starts at 0 with nothing cleared. A selection naming an active task starts at its first occurrence. Any other truthy selection starts at 0 and requests a clear |
| FocusMode.IncompleteSnapshot | magictask/app/static/js/focus_mode.js:26 | The snapshot taken at start holds only incomplete tasks |
| FocusMode.CompleteAtRemovesCurrent | magictask/app/static/js/focus_mode.js:96-100 | On a snapshot of incomplete tasks, completing removes exactly the task at the cursor, so the same index shows the next task or is past the end |
| FocusMode.CompletionsExhaust | magictask/app/static/js/focus_mode.js:85-100 | Completing as often as there are tasks from the cursor on leaves exactly the tasks before it, with nothing left to show |
| FocusMode.FocusSession.constructor | magictask/app/static/js/focus_mode.js:15-39 | The snapshot is the incomplete tasks, the cursor is the resolved selection, and a clear of `selected_task_id` is sent exactly when requested |
| FocusMode.FocusSession.Current | magictask/app/static/js/focus_mode.js:53-65 | No task to show exactly when the cursor is past the snapshot; otherwise the task at the cursor, which on a valid session is never a completed task |
| FocusMode.FocusSession.CompleteAndNext | magictask/app/static/js/focus_mode.js:85-108 | Nothing happens with no task to show. Otherwise the current task's complete request is sent; on success the snapshot loses exactly that task; on failure it is kept. The cursor never moves |
| FocusMode.FocusSession.ExitFocusMode | magictask/app/static/js/focus_mode.js:126-131 | Sends `{focus_mode: false, selected_task_id: null}` and changes nothing else |
| TaskModel.DeepMerge | magictask/app/models/task_model.py:148-154 | The result has the keys of both maps, keeps every key the update does not name, takes every non-dictionary update value, and merges dictionary values |
| TaskModel.DeepUpdate | magictask/app/models/task_model.py:148-154 | The key-by-key loop with its recursive call computes exactly the merge |
| TaskModel.MergeIntoEmpty | magictask/app/models/task_model.py:150-151 | Merging into an empty dictionary, as `d.get(k, {})` does for a new key, reproduces the update |
| TaskModel.MergeStaysMergeable | magictask/app/models/task_model.py:148-154 | A merge result can take the same update again without raising |
| TaskModel.MergeIdempotent | magictask/app/models/task_model.py:148-154 | Applying the same update twice gives the same state as applying it once |
| TaskModel.NestedSiblingsSurvive | magictask/app/models/task_model.py:150-151 | A nested update keeps the sibling fields it does not name |
| TaskModel.MergeInto | magictask/app/models/task_model.py:173-187 | A merge into a stored value keeps the value's shape, and into a dictionary it has the keys of both |
| TaskModel.AppStateView | magictask/app/models/task_model.py:156-171 | Reading the state always yields a non-empty dictionary: the defaults when the entry is missing, not a dictionary, or empty; the stored value otherwise |
| TaskModel.EmptyStoredStateDropsDefaults | magictask/app/models/task_model.py:156-187 | A stored empty dictionary reads as the defaults, but the first update merges into it as it is, so it then reads as the update alone |
| TaskModel.ReadAfterUpdate | magictask/app/models/task_model.py:156-187 | After a non-empty update of a stored dictionary, reading the state gives the merged dictionary |
| TaskModel.WithCompletionProperties | magictask/app/models/task_model.py:196-207 | Completion sets the flag. Only a change stamps the time (or clears it when un-completing). Nothing else changes, and repeating it changes nothing |
| TaskModel.TaskUpdatesProperties | magictask/app/models/task_model.py:69-77 | Exactly the named title, urgency, effort and collapsed fields are replaced; other keys are ignored; restricting the update to those four keys first changes nothing; repeating the update changes nothing |
| TaskModel.WithoutTaskProperties | magictask/app/models/task_model.py:90-100 | Deleting leaves no task with the id, keeps every other task in order, and shortens the list exactly when the id was present |
| TaskModel.NewSubtaskFound | magictask/app/models/task_model.py:240-248 | With a fresh id, the appended subtask is the one the id search finds, it starts incomplete with no completion time, and checking it later stamps the time of that check |
| TaskModel.SubtaskUpdatesProperties | magictask/app/models/task_model.py:275-289 | The title is replaced if named. A named completion is stored as given, stamped on a false-to-true change, cleared when falsy, and otherwise keeps the old time |
| TaskModel.WithoutSubtaskProperties | magictask/app/models/task_model.py:305-311 | Deleting leaves no subtask with the id, keeps the order, and shortens the list exactly when the id was present |
| TaskModel.DataFile.constructor | magictask/app/models/task_model.py:9-29 | The loaded document holds the given tasks and state entry |
| TaskModel.DataFile.GetAppState | magictask/app/models/task_model.py:156-171 | Reading the state is the defaulting view of the stored entry |
| TaskModel.DataFile.UpdateAppState | magictask/app/models/task_model.py:173-187 | A non-dictionary update is refused with None and nothing changes; otherwise the stored entry (or the defaults) is merged with the update, stored and returned |
| TaskModel.DataFile.SetTaskCompletionStatus | magictask/app/models/task_model.py:189-222 | None and no change when no task has the id; otherwise only the first such task gets the completion update and is returned |
| TaskModel.DataFile.UpdateTaskById | magictask/app/models/task_model.py:61-88 | None and no change when no task has the id; otherwise only the first such task gets the field updates and is returned |
| TaskModel.DataFile.DeleteTaskById | magictask/app/models/task_model.py:90-100 | Removes every task with the id, and reports true exactly when one existed |
| TaskModel.DataFile.AddSubtaskToTask | magictask/app/models/task_model.py:224-253 | None and no change when no task has the parent id; otherwise the new subtask is appended to the first such task and returned |
| TaskModel.DataFile.UpdateSubtaskInTask | magictask/app/models/task_model.py:255-297 | Only the first task with the parent id is searched. None and no change when it or the subtask is missing; otherwise only that subtask is updated and returned |
| TaskModel.DataFile.DeleteSubtaskFromTask | magictask/app/models/task_model.py:299-319 | Removes the subtasks with the id from the first task with the parent id, and reports true exactly when one existed |
| AppView.Decimal | magictask/app/static/js/app.js:35 | `String(n)` is a non-empty digit string, one digit exactly below 10 and two digits from 10 to 99 |
| AppView.DecimalRoundTrip | magictask/app/static/js/app.js:35 | The digits of `String(n)` read back as `n` |
| AppView.Pad2 | magictask/app/static/js/app.js:35 | Padding gives at least two digits that read back as `n`, and exactly two below 100 |
| AppView.FormatPomodoroTimeProperties | magictask/app/static/js/app.js:34-36 | The display reads back as the minutes and seconds shown; for values below 100 it is five characters with the colon in the middle |
| AppView.TimerSettingsProperties | magictask/app/static/js/app.js:61-70 | Each of the five numeric settings is taken from the stored `pomodoro` object when it is a positive integer, and falls back to its own default (25, 5, 15, 4, 0) when missing, null, zero, false or empty, or when `pomodoro` is not an object; `enabled` is the stored value, and true only when absent |
| AppView.DefaultStateSettings | magictask/app/static/js/app.js:61-70 | From the server's default state the timer gets 25 and 5 minutes as stored, and 15 minutes, 4 cycles, enabled and 0 cycles from the fallbacks |
| AppView.DefaultStateStartsDefaultTimer | magictask/app/static/js/app.js:61-70 | The server's default state starts a timer equal to one built with no settings |
| AppView.WrittenFields | magictask/app/static/js/app.js:80-120 | Every record the callbacks write under `pomodoro` is non-empty and holds no nested object |
| AppView.Writes | magictask/app/static/js/app.js:81-84 | At most one request is sent per callback |
| AppView.NeverPersistsActive | magictask/app/static/js/app.js:99-138 | From start-up on, no sequence of timer operations ever stores `active: true` |
| AppView.RunningTickPersistsNothing | magictask/app/static/js/app.js:81-84 | A tick that does not complete a session sends nothing |
| AppView.CycleWriteMatchesTimer | magictask/app/static/js/app.js:112-123 | A work completion's record carries the new cycle count, inactive, on break, and the break's full length |
| AppView.MergePomodoroWrite | magictask/app/models/task_model.py:148-154 | The server's merge of a callback record replaces exactly the written `pomodoro` fields and keeps every other field and key |
| AppView.ApplyWrite | magictask/app/static/js/app.js:109 | One sent record leaves the stored `pomodoro` entry an object with the record's fields written over it |
| AppView.Persist | magictask/app/static/js/app.js:81-123 | Any sequence of records keeps the `pomodoro` entry an object and every other key of the state unchanged |
| AppView.PersistKeepsUnwritten | magictask/app/static/js/app.js:81-123 | Stored `pomodoro` fields that no record names, such as the durations, survive every sequence of records |
| AppView.CompletionPersisted | magictask/app/static/js/app.js:101-123 | After a work completion the stored record holds the new count, the break's length, inactive and, because the idle record comes last, not on a break |
| AppView.SkipToggles | magictask/app/static/js/app.js:156-163 | The skip button always switches the session kind and leaves the timer idle at the new session's full length with the cycles kept |
| AppView.ViewFilterProperties | magictask/app/static/js/app.js:171-176 | The active view shows exactly the incomplete tasks and the completed view exactly the completed ones, each in list order; any other view shows everything |
| AppView.ViewCounts | magictask/app/static/js/app.js:171-176 | Counted with repetitions, the active view holds every copy of each incomplete task and none of a completed one, and the completed view the reverse |
| AppView.ViewsPartition | magictask/app/static/js/app.js:172-176 | The active and completed views together account for every task |
| AppView.FocusPickProperties | magictask/app/static/js/app.js:377-392 | Entering focus mode selects the first incomplete task in the active and all views and null otherwise, and the focus page then starts at its first task without clearing |
| AppView.DigitPrefix | magictask/app/static/js/app.js:247 | The digit run read is all digits, a prefix of the input, and maximal |
| AppView.ParseIntOfDigits | magictask/app/static/js/app.js:247 | `parseInt` of a non-empty run of digits is that run's decimal value |
| AppView.ParseIntOfDecimal | magictask/app/static/js/app.js:247 | `parseInt` reads back the effort value the edit form writes |
| AppView.SubmitTaskFormRefusals | magictask/app/static/js/app.js:245-249 | The form is refused for a blank title, and otherwise exactly for an effort that does not parse to 1, 2 or 3 |
| AppView.SubmitTaskFormBody | magictask/app/static/js/app.js:245-257 | An accepted form sends the trimmed title, urgency 1 or 0 and the parsed effort. It updates (PUT) exactly when an edit id is set, and creates (POST) otherwise |
| AppView.SubmitTaskFormAccepts | magictask/app/static/js/app.js:245-250 | A title that trims to something and an effort that parses to 1, 2 or 3 are accepted, and the body holds the trimmed title, the urgency and that effort |
| AppView.FormAcceptsEffortChoices | magictask/app/static/js/app.js:247-250 | Each effort choice 1 to 3 is accepted with a non-blank title, and the body holds the trimmed title, the urgency and that number |
| ApiRoutes.NewTaskProperties | magictask/app/routes/api_routes.py:18-39 | A task is created exactly when the body has a title, otherwise 400. It takes urgency 0 and effort 1 unless given, and always starts incomplete, without subtasks and not collapsed |
| ApiRoutes.AddTaskRoute | magictask/app/routes/api_routes.py:18-44 | Answers 201 with the new task appended last, or the refusal with nothing stored |
| ApiRoutes.AllowedTaskUpdatesProperties | magictask/app/routes/api_routes.py:63-89 | Updates pass exactly when the body is non-empty, names an updatable field, and has valid urgency (0/1), effort (1-3) and collapsed (boolean) where given. What passes is the body restricted to the four fields; every refusal is 400 |
| ApiRoutes.UpdateTaskRoute | magictask/app/routes/api_routes.py:63-95 | The refusal, or 404 with nothing changed for an unknown id, or 200 with the first matching task updated |
| ApiRoutes.ValidNewSubtaskProperties | magictask/app/routes/api_routes.py:107-111 | A subtask passes exactly when its title is a string that is not blank; a non-string title raises (500) |
| ApiRoutes.AddSubtaskRoute | magictask/app/routes/api_routes.py:107-116 | The refusal, or 404 for an unknown parent, or 201 with the new subtask appended to the first matching parent |
| ApiRoutes.ValidSubtaskUpdatesProperties | magictask/app/routes/api_routes.py:118-128 | Updates pass exactly when the body is non-empty, any `completed` is boolean and any title is a non-blank string. A title that is neither null nor a string raises (500) |
| ApiRoutes.UpdateSubtaskRoute | magictask/app/routes/api_routes.py:118-134 | The refusal, or 404 when the parent or subtask is missing, or 200 with only that subtask updated |
| ApiRoutes.SetCompletionRoute | magictask/app/routes/api_routes.py:142-147 | 404 with nothing changed exactly when no task has the id; otherwise 200 with the completion update applied |
| ApiRoutes.StateUpdateProperties | magictask/app/routes/api_routes.py:161-175 | A non-object body is 400. An object is merged into the stored state or the defaults: 500 exactly when the merge raises, success whenever the base is a dictionary and the merge does not raise, and 400 for a stored null with an empty update |
| ApiRoutes.UpdateStateRoute | magictask/app/routes/api_routes.py:161-175 | Answers 200 with the merged state, which is stored; every refusal leaves the stored state as it was |
| ApiRoutes.FormSubmissionsAccepted | magictask/app/static/js/app.js:250-256 | Every request the task form sends passes the server's checks: a creation makes a task with the form's fields, and an update passes on all three fields |
| ApiRoutes.PageNewSubtaskAccepted | magictask/app/static/js/app.js:306-310 | The page's add-subtask request, a trimmed non-empty title, passes the server's check, for the modelled whitespace set |
| ApiRoutes.PageSubtaskToggleAccepted | magictask/app/static/js/app.js:331-336 | The page's subtask checkbox request passes the server's check |

## Left out

- Real time is not modelled. The one-second `setInterval` is an explicit tick, and a tick without an interval set does not happen.
- The callbacks are not modelled as functions. Each timer method appends what it fires to an event log, so a replaced or missing callback is not represented.
- The DOM is not modelled: element lookups, rendering, button states, `document.title`, alerts and confirms are presentation only.
- `fetch` and the asynchronous order of requests are not modelled. Requests are appended in the order they are sent, and a failed request is a parameter. The page's handling of server responses is not modelled beyond that.
- Loading and saving the JSON file is not modelled: `load_data`, `save_data`, a missing or corrupt file, and I/O errors. A `DataFile` is the document as loaded, and its methods change it as the code does before saving.
- The current time and the UUIDs are parameters.
- Request bodies for the task and subtask routes are dictionaries or absent. A JSON list or scalar there, which Python would test with `in` as list membership or substring, is not modelled. `PUT /api/state` does take any JSON value.
- Python's `bool` being a subtype of `int` is not modelled. So `True` passing the urgency and effort checks as 1, and `False` as 0 for urgency, is not captured. Numbers are integers only; floats are not modelled.
- Whitespace is space, tab, line feed, carriage return, vertical tab and form feed, for both `str.strip()` and `String.prototype.trim()`. Python's `strip()` also removes the ASCII separators `\x1c` to `\x1f` and `\x85`, which `trim()` keeps; those characters, and the other Unicode whitespace the two functions remove, are not modelled.
- ApiRoutes.PageNewSubtaskAccepted: holds because the page and the server share one whitespace set here. A title made only of `\x1c` to `\x1f` or `\x85` survives `trim()`, so the page sends it, and the server's `strip()` empties it and answers 400.
- JSON key order and the exact text of the framework's 500 page are not modelled. The page is one value, `UncaughtError`.
- `DEFAULT_APP_STATE.copy()` is shallow, so a later in-place merge into a returned default would alias the constant's nested dictionaries. This is not modelled: values are immutable here.
- TaskModel.DeepUpdate: returns the merged dictionary as a value; the in-place update of the caller's dictionary is not modelled.
- A task stored without a `subtasks` key is not modelled (every task has a list). A parent task's `subtasks` list is represented as present.
- The focus page marks the completed task in the shared `allTasks` list as well as in the snapshot; only the snapshot is modelled.
- AppView.TimerSettings: assumes the fetched state is an object or null; treats `null` as reading no fields, where JavaScript would throw. Truthy non-integer values (strings, lists, objects) fall back to the default instead of being passed on as JavaScript would pass them. A stored negative integer also falls back to the default, because the timer's settings are natural numbers; JavaScript passes it on, and a negative duration would make the first tick complete the session.
- The routes that only read (`GET /api/tasks`, `GET /api/tasks/<id>`, `GET /api/state`) are not modelled, and neither are the two delete routes; the delete operations themselves are (`TaskModel.DataFile.DeleteTaskById`, `TaskModel.DataFile.DeleteSubtaskFromTask`).
- The `except Exception` of `add_task` (500) covers only file and environment errors in this model, so it has no modelled path.
