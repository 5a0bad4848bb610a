# TareaApp core in Dafny

TareaApp is a local to-do app for React Native. Users register on the device and log in. They
create tasks with a title, weekdays and a start/end time, mark them in progress or completed,
filter them by status and day, reorder them by dragging, and get reminders through the
operating system's notification facility. This project models the rule-bearing core of that
app and proves properties of it:

- the task validators: the modular time, day and title services, and the inline aggregator that
  coexists with them;
- the credential and form validators;
- the task registry, which commits each change only after storage accepts it;
- the status cycle and the modal state of the task-action hook;
- the status/day filter and the counts;
- the task form: day toggle, time-input formatter, task construction;
- the drag-and-drop reorder, both as an in-place array method and as a sequence function;
- reminder bookkeeping over the OS pending-notification set;
- the two user services and the authentication session;
- the error taxonomy and the error log.

Layout: one module per source file, plus four shared modules. `Wrappers` has
`Option`/`Result`/`Outcome`. `Lists` has an order-preserving filter and other list facts.
`Text` has JavaScript-style `trim`, `startsWith`, `split`, `join` and digit handling.
`Verdicts` has the `{isValid, error?}` verdict and the first-failure chain. State that the
source changes in place is a class field: the task list and its stored copy, the stored
account, the modal flags, the drag index, the pending-notification ids, the error log and the
form field errors. Whether a call into storage or the OS succeeds is a parameter of the
method.

The two task validators are kept apart. The inline one (src/services/TaskValidationService.ts)
has no 15-minute minimum and no weekday whitelist. Its tests expect both, and a verdict for a
null input; the model follows the code. `TaskValidation.InlineAcceptsShortSpanishTask` and
`TaskValidation.ModularRejectsShortSpanishTask` show one input on which the two disagree.

## Model

| member | source | states |
|---|---|---|
| TimeValidation.TimeRegexIsClockTime | src/services/validation/TimeValidationService.ts:20-23 | the time pattern accepts a string iff it is a one- or two-digit hour 0..23, a colon and two minute digits 00..59 |
| TimeValidation.ValidateTimeVerdicts | src/services/validation/TimeValidationService.ts:14-25 | the empty string gives "La hora es requerida" before any format check; otherwise the verdict is valid iff the pattern matches, else the format message |
| TimeValidation.RenderedTimeAccepted | src/services/validation/TimeValidationService.ts:20-23 | every hour below 24 and minute below 60, written with or without a leading hour zero, is accepted and reads back as the same hour and minute |
| TimeValidation.HourOf | src/services/validation/TimeValidationService.ts:48 | the hour of an accepted time is below 24 |
| TimeValidation.MinuteOf | src/services/validation/TimeValidationService.ts:48 | the minute of an accepted time is below 60 |
| TimeValidation.JsNumberReadsRendered | src/services/validation/TimeValidationService.ts:48-49 | `Number` reads the decimal rendering of every natural number back as that number, with or without one leading zero |
| TimeValidation.AcceptedTimeMinutes | src/services/validation/TimeValidationService.ts:48-52 | an accepted time maps to H*60+M, which lies in 0..1439 |
| TimeValidation.RangeReportsStartFirst | src/services/validation/TimeValidationService.ts:38-41 | a bad start is reported first, whatever the end, as "Hora de inicio inválida: " followed by the inner message |
| TimeValidation.RangeReportsEndSecond | src/services/validation/TimeValidationService.ts:43-46 | with a good start, a bad end is reported as "Hora de fin inválida: " followed by the inner message |
| TimeValidation.WellFormedRangeVerdict | src/services/validation/TimeValidationService.ts:51-69 | for two accepted times: start ≥ end gives the ordering message; a span below 15 minutes gives the duration message; every other pair is valid |
| TimeValidation.DurationExamples | src/services/validation/TimeValidationService.ts:61-69 | a span of exactly 15 minutes is accepted and 10 is not |
| TimeValidation.OrderExamples | src/services/validation/TimeValidationService.ts:54-59 | equal times and 23:00→01:00 are rejected: there is no wrap past midnight |
| TimeValidation.FormatExamples | src/services/validation/TimeValidationService.ts:20-23 | 9:30 is accepted; 25:00, 12:60 and 12:5 are not |
| DaysValidation.DaysValidIff | src/services/validation/DaysValidationService.ts:12-33 | valid iff the list is non-empty and every entry is one of the seven weekday names; the empty list gets its own message |
| DaysValidation.DaysErrorNamesInvalidEntries | src/services/validation/DaysValidationService.ts:25-31 | the error lists exactly the invalid entries, in input order and with their repetitions, joined with ", " |
| DaysValidation.CaseSensitiveNames | src/services/validation/DaysValidationService.ts:12-25 | "MONDAY" and "lunes" are rejected |
| DaysValidation.DuplicateDaysAccepted | src/services/validation/DaysValidationService.ts:25-33 | a repeated valid day is accepted |
| DaysValidation.InvalidDaysListedInOrder | src/services/validation/DaysValidationService.ts:25-31 | a list with two invalid names reports both, in input order |
| TitleValidation.TitleVerdicts | src/services/validation/TitleValidationService.ts:14-29 | empty gives "es obligatorio"; non-empty blank gives "no puede estar vacío"; a trimmed length over 100 gives the length message; valid iff the trimmed length is 1..100 |
| TitleValidation.SurroundingWhitespaceIgnored | src/services/validation/TitleValidationService.ts:19-26 | padding a non-blank title with whitespace never changes the verdict |
| TitleValidation.TitleLengthBoundary | src/services/validation/TitleValidationService.ts:24-26 | exactly 100 characters are accepted, also when padded; 101 are rejected |
| TitleValidation.TrimOfUntrimmed | src/services/validation/TitleValidationService.ts:19 | trimming a string with no whitespace at either end leaves it unchanged |
| TaskValidation.ValidateTaskIsFirstFailure | src/services/TaskValidationService.ts:42-58 | the verdict is the first failing one of title, days, start format, end format and range, unchanged; valid iff all five pass |
| TaskValidation.ValidTaskIff | src/services/TaskValidationService.ts:10-58 | valid iff the title is not blank, the day list is non-empty, both times match the pattern, and the start minute precedes the end minute |
| TaskValidation.SameTimeGrammar | src/services/TaskValidationService.ts:24-30 | the inline time check accepts exactly what the modular one accepts |
| TaskValidation.ModularRulesAreStricter | src/services/TaskValidationService.ts:9-59 | a task that passes the modular title, day and range validators passes the inline aggregator |
| TaskValidation.InlineAcceptsShortSpanishTask | src/services/TaskValidationService.ts:17-40 | the inline aggregator accepts Spanish day names and a 10-minute span |
| TaskValidation.ModularRejectsShortSpanishTask | src/services/validation/DaysValidationService.ts:25-31 | the modular validators reject that same task's days and time range |
| ValidationUtils.ValidateRequired | src/utils/validation.ts:7-15 | fails iff the value is empty or blank, with "<field> es obligatorio" |
| ValidationUtils.ValidatePasswordMatch | src/utils/validation.ts:17-25 | fails iff the two strings differ |
| ValidationUtils.ValidatePasswordLength | src/utils/validation.ts:27-35 | fails iff the length is below the minimum (default 6), naming the minimum |
| ValidationUtils.RegistrationIsFirstFailure | src/utils/validation.ts:37-55 | the registration verdict is the first failure among username, password and confirmation required, password length, match |
| ValidationUtils.RegistrationValidIff | src/utils/validation.ts:37-55 | valid iff the username and both passwords are not blank, the password has at least 6 characters and the confirmation equals it |
| ValidationUtils.RegistrationUsernameFirst | src/utils/validation.ts:42-43 | a blank username is reported whatever the passwords are |
| ValidationUtils.RegistrationLengthBeforeMatch | src/utils/validation.ts:51-54 | a short password is reported before a mismatch |
| ValidationUtils.PasswordChangeIsFirstFailure | src/utils/validation.ts:57-75 | the password-change verdict is the same first-failure chain over the current, new and confirmation fields |
| ValidationUtils.PasswordChangeValidIff | src/utils/validation.ts:57-75 | valid iff the three fields are not blank, the new password has at least 6 characters and matches its confirmation |
| ValidationUtils.CurrentPasswordOnlyRequired | src/utils/validation.ts:62-63 | once present, the current password never affects the verdict |
| ValidationUtils.SamePasswordPassesForm | src/utils/validation.ts:57-75 | reusing the current password as the new one passes this form |
| UserValidation.ValidateUserData | src/services/UserValidationService.ts:11-20 | fails with INVALID_USER_DATA iff the user is absent or has an empty username or password |
| UserValidation.ValidateLoginCredentials | src/services/UserValidationService.ts:22-30 | fails with MISSING_CREDENTIALS iff the username or the password is empty |
| UserValidation.ValidatePasswordChangeParams | src/services/UserValidationService.ts:32-48 | a missing value gives INVALID_PASSWORD_CHANGE_PARAMS; otherwise equal passwords give SAME_PASSWORD; passes iff both present, user present and the passwords differ |
| UserValidation.MissingBeatsSame | src/services/UserValidationService.ts:33-47 | two empty passwords report the missing value, not the repetition |
| UserValidation.WhitespaceIsPresent | src/services/UserValidationService.ts:22-48 | whitespace-only strings count as present, since nothing is trimmed |
| NotificationValidation.ValidateTaskParams | src/services/NotificationValidationService.ts:9-27 | a blank id gives INVALID_TASK_ID before the title is examined; a blank title gives INVALID_TASK_TITLE with title and id in its details; passes iff neither is blank |
| NotificationValidation.ValidateTaskId | src/services/NotificationValidationService.ts:29-38 | fails with INVALID_TASK_ID_CANCEL iff the id is blank |
| NotificationValidation.SameIdRule | src/services/NotificationValidationService.ts:9-38 | with a non-blank title, both checks reject exactly the same ids |
| NotificationValidation.IdExamples | src/services/NotificationValidationService.ts:29-38 | an id of tabs, newlines and spaces is rejected; a padded id and a title pass |
| FormValidation.ValidateField | src/hooks/useFormValidation.ts:18-20 | a field without rules has no error |
| FormValidation.FieldValidIff | src/hooks/useFormValidation.ts:18-43 | a ruled field has no error iff it passes required, the active bounds, the pattern, and the custom check has no message |
| FormValidation.FirstRuleWins | src/hooks/useFormValidation.ts:22-42 | the message is that of the first failing rule, in the order required, minLength, maxLength, pattern, custom |
| FormValidation.ZeroBoundIgnored | src/hooks/useFormValidation.ts:26-32 | a bound of 0 behaves as no bound |
| FormValidation.RequiredTrimsLengthDoesNot | src/hooks/useFormValidation.ts:22-28 | required rejects a blank value that a length bound of 2 accepts |
| FormValidation.FormErrors | src/hooks/useFormValidation.ts:45-59 | the error map holds exactly the ruled fields that fail (missing fields read as ""), each with its field's message |
| FormValidation.ExtraFieldsIgnored | src/hooks/useFormValidation.ts:49-50 | values of fields without rules never affect the errors |
| FormValidation.ComputeErrors | src/hooks/useFormValidation.ts:46-55 | the loop builds exactly the error map, and the flag is true iff no ruled field fails |
| FormValidation.FormValidator.ValidateForm | src/hooks/useFormValidation.ts:45-59 | stores the error map and returns true iff it is empty |
| FormValidation.FormValidator.ClearErrors | src/hooks/useFormValidation.ts:61-63 | the error map becomes empty |
| FormValidation.FormValidator.ClearFieldError | src/hooks/useFormValidation.ts:65-71 | removes that key only; every other error is kept |
| TaskRegistry.Replaced | src/context/TaskContext.tsx:67-69 | the list with every task of the given id replaced; length, ids and all other tasks unchanged |
| TaskRegistry.WithStatus | src/context/TaskContext.tsx:74-76 | only the status of tasks with the given id changes, to the given status |
| TaskRegistry.TaskById | src/hooks/useTaskActions.ts:190 | absent iff no task has the id; otherwise the first task of the list with that id, as `find` returns |
| TaskRegistry.WithoutSpec | src/context/TaskContext.tsx:80-83 | deletion keeps exactly the tasks with other ids, in order and with their repetitions, and leaves none with the id |
| TaskRegistry.OwnedBySpec | src/context/TaskContext.tsx:85-87 | the user's tasks are exactly those whose user is the username, in order and with their repetitions |
| TaskRegistry.OwnedByAppend | src/context/TaskContext.tsx:61-87 | adding a task adds it to its owner's list only, at the end |
| TaskRegistry.ReplacedIdempotent | src/context/TaskContext.tsx:66-71 | replacing twice equals replacing once; an unknown id changes nothing |
| TaskRegistry.WithStatusOverrides | src/context/TaskContext.tsx:73-78 | the second status patch wins |
| TaskRegistry.WithStatusUnchanged | src/context/TaskContext.tsx:73-78 | patching to the status the tasks already have changes nothing |
| TaskRegistry.TaskByIdAfterPatch | src/context/TaskContext.tsx:73-78 | after a patch the task found by id carries the new status |
| TaskRegistry.TaskStore.LoadTasks | src/context/TaskContext.tsx:38-50 | tasks become the stored list only when one exists and can be read; loading always ends |
| TaskRegistry.TaskStore.SaveTasks | src/context/TaskContext.tsx:52-59 | the in-memory list changes only after the write succeeds; a failed write changes nothing |
| TaskRegistry.TaskStore.AddTask | src/context/TaskContext.tsx:61-64 | appends at the end after a successful write; memory and storage stay in step |
| TaskRegistry.TaskStore.UpdateTask | src/context/TaskContext.tsx:66-71 | replaces by id after a successful write |
| TaskRegistry.TaskStore.UpdateTaskStatus | src/context/TaskContext.tsx:73-78 | patches the status by id after a successful write |
| TaskRegistry.TaskStore.DeleteTask | src/context/TaskContext.tsx:80-83 | removes by id after a successful write |
| TaskRegistry.TaskStore.GetUserTasks | src/context/TaskContext.tsx:85-87 | returns, in order, exactly the user's tasks |
| TaskActions.NextStatus | src/hooks/useTaskActions.ts:200-208 | the toggle always changes the status |
| TaskActions.StatusCycle | src/hooks/useTaskActions.ts:200-208 | undefined → in-progress → completed → undefined: three toggles restore a status, and the toggle is injective |
| TaskActions.ThreeTogglesRestore | src/hooks/useTaskActions.ts:200-209 | three toggles of a task id restore the list |
| TaskActions.TaskActions.CloseModal | src/hooks/useTaskActions.ts:97-101 | hides the form, leaves edit mode and clears the selection |
| TaskActions.TaskActions.CloseViewModal | src/hooks/useTaskActions.ts:103-108 | hides the detail view and clears the selection |
| TaskActions.TaskActions.OpenNewTask | src/hooks/useTaskActions.ts:110-114 | clears the selection and opens the form in create mode |
| TaskActions.TaskActions.HandleTaskCreated | src/hooks/useTaskActions.ts:31-40 | updates in edit mode with a selection, otherwise adds; then closes the form |
| TaskActions.TaskActions.HandleTaskPress | src/hooks/useTaskActions.ts:42-65 | an empty id is reported and selects nothing; otherwise the task is selected and shown |
| TaskActions.TaskActions.HandleEditTask | src/hooks/useTaskActions.ts:67-95 | an empty id is reported; otherwise the detail view closes and the form opens in edit mode on the task |
| TaskActions.TaskActions.HandleDeleteTask | src/hooks/useTaskActions.ts:116-145 | an empty id is reported and nothing is deleted; a confirmed deletion removes the id |
| TaskActions.TaskActions.HandleCompleteTask | src/hooks/useTaskActions.ts:147-178 | an empty id is reported; a confirmed completion removes the task when the write succeeds, and shows "¡Excelente!" whether or not it did |
| TaskActions.TaskActions.HandleToggleTaskStatus | src/hooks/useTaskActions.ts:180-212 | an empty id or an unknown task is reported and changes nothing; otherwise the task's status advances one step in the cycle, and the patched list is saved and committed only when the write succeeds |
| TaskActions.TaskActions.HandleToggleNotifications | src/hooks/useTaskActions.ts:214-241 | an empty id or an unknown task is reported; a failing toggle callback is reported as an UNKNOWN ASYNC_ERROR with no new state; otherwise the new state is the negation of the task's flag, with "unset" reading as off |
| TaskActions.WiredToggleShowsError | src/hooks/useErrorHandler.ts:30-46 | the converted TypeError of the missing toggle callback is shown in the generic "Error" dialog with the TypeError's message |
| TaskFiltering.FilteredSpec | src/hooks/useTaskFiltering.ts:14-27 | a task is kept iff its status matches the filter and its days match the day; the result is the list with exactly the failing positions deleted, so no longer than the list |
| TaskFiltering.AllAllIsIdentity | src/hooks/useTaskFiltering.ts:17-23 | "all"/"all" returns the list unchanged |
| TaskFiltering.UnsetShownOnlyUnderAll | src/hooks/useTaskFiltering.ts:16-19 | a task without status is shown only under the "all" filter |
| TaskFiltering.TaskCounts | src/hooks/useTaskFiltering.ts:29-33 | the total count is the list length, and completed + in progress never exceed it |
| TaskFiltering.FilterMatchesCounts | src/hooks/useTaskFiltering.ts:14-33 | with day "all", the completed and in-progress lists have exactly the counted lengths |
| HomeScreen.UserTasks | src/hooks/useHomeScreen.ts:28 | empty without a logged-in user; otherwise exactly that user's tasks |
| HomeScreen.HomeListSpec | src/hooks/useHomeScreen.ts:44-91 | the listed tasks are exactly the user's tasks matching status and day, in registry order and with their repetitions, and never more than the total count |
| TaskForm.Toggled | src/hooks/useTaskForm.ts:45-51 | toggling flips the day's membership and keeps every other day's |
| TaskForm.ToggledNoDuplicates | src/hooks/useTaskForm.ts:45-51 | toggling keeps a duplicate-free list duplicate-free |
| TaskForm.ToggleAbsentTwice | src/hooks/useTaskForm.ts:45-51 | toggling an absent day twice restores the list |
| TaskForm.TogglePresentTwice | src/hooks/useTaskForm.ts:45-51 | toggling a present day twice keeps the same days but moves it to the end |
| TaskForm.TimeChars | src/hooks/useTaskForm.ts:54 | the cleaned text holds only digits and colons |
| TaskForm.FormatTimeInput | src/hooks/useTaskForm.ts:53-65 | the output holds only digits and colons and is at most 5 long; a colon is appended exactly when the cleaned text is two characters without a colon |
| TaskForm.FormattedTimeIdempotent | src/hooks/useTaskForm.ts:53-65 | formatting a formatted value changes nothing |
| TaskForm.TwoDigitsGetColon | src/hooks/useTaskForm.ts:56-58 | "09" becomes "09:" |
| TaskForm.FourDigitsStayBare | src/hooks/useTaskForm.ts:56-58 | "0930" gets no colon |
| TaskForm.JunkDropped | src/hooks/useTaskForm.ts:53-65 | characters other than digits and colons never change the result, wherever they are typed |
| TaskForm.TrimmedTitleStillValid | src/hooks/useTaskForm.ts:73-89 | a form that validates still validates once its title is trimmed |
| TaskForm.BuiltTask | src/hooks/useTaskForm.ts:85-95 | the submitted task has the trimmed title and description and the username; in edit mode it keeps the edited task's id and status, otherwise it has the fresh id and no status |
| TaskForm.UntouchedEditResubmits | src/hooks/useTaskForm.ts:85-95 | loading a task into the form and submitting it untouched gives back that task with its title and description trimmed |
| TaskForm.TaskForm.ResetForm | src/hooks/useTaskForm.ts:36-43 | restores "", "", [], "09:00", "17:00" and reminders on |
| TaskForm.TaskForm.ToggleDay | src/hooks/useTaskForm.ts:45-51 | toggles the day and no other field changes |
| TaskForm.TaskForm.SyncWithEditTask | src/hooks/useTaskForm.ts:23-34 | in edit mode the fields take the task's values, otherwise the form is reset |
| TaskForm.TaskForm.HandleSubmit | src/hooks/useTaskForm.ts:67-98 | nothing is submitted without a username or when validation fails, each with its alert; otherwise the built task is submitted |
| DragAndDrop.MovedSpec | src/hooks/useDragAndDrop.ts:34-36 | the reordered list is a permutation with the dragged item at the target and the others in their original order; moving back restores the list |
| DragAndDrop.MovedAt | src/hooks/useDragAndDrop.ts:34-36 | each position of the reordered list, stated pointwise |
| DragAndDrop.MovedPermutation | src/hooks/useDragAndDrop.ts:34-36 | the reorder is a permutation |
| DragAndDrop.RemoveInsert | src/hooks/useDragAndDrop.ts:35-36 | removing what was just inserted gives the list back |
| DragAndDrop.InsertRemove | src/hooks/useDragAndDrop.ts:35-36 | reinserting a removed element at its place gives the list back |
| DragAndDrop.RoundedIndex | src/hooks/useDragAndDrop.ts:29 | the rounded row index is the integer nearest to draggedIndex + gestureY/itemHeight, halves rounded up |
| DragAndDrop.Clamp | src/hooks/useDragAndDrop.ts:30 | the target index is clamped into 0..length−1 |
| DragAndDrop.SmallMoveKeepsRow | src/hooks/useDragAndDrop.ts:29-32 | a gesture within half a row rounds back to the dragged row |
| DragAndDrop.MoveInPlace | src/hooks/useDragAndDrop.ts:33-36 | the array afterwards holds the moved sequence |
| DragAndDrop.DragState.OnDragStart | src/hooks/useDragAndDrop.ts:20-23 | records the index and starts dragging |
| DragAndDrop.DragState.OnDragEnd | src/hooks/useDragAndDrop.ts:43-46 | clears the index and stops dragging |
| DragAndDrop.DragState.OnDragMove | src/hooks/useDragAndDrop.ts:25-41 | does nothing without an active drag; reorders only when the clamped index differs and the gesture passes half a row, and then the index follows the item |
| NotificationScheduler.CancelledFor | src/services/NotificationSchedulerService.ts:48-55 | cancellation keeps exactly the pending ids that do not start with the task id |
| NotificationScheduler.Registered | src/services/NotificationSchedulerService.ts:28-36 | registering adds the id to the pending set and removes nothing |
| NotificationScheduler.CancelEachMatching | src/services/NotificationSchedulerService.ts:48-55 | cancelling every matched id in turn leaves exactly the unmatched ones |
| NotificationScheduler.PrefixCollision | src/services/NotificationSchedulerService.ts:48-51 | cancelling task "1" also cancels task "10"'s reminder |
| NotificationScheduler.CancelIdempotent | src/services/NotificationSchedulerService.ts:44-59 | cancelling twice equals cancelling once; with no match nothing changes |
| NotificationScheduler.ScheduleResult | src/services/NotificationSchedulerService.ts:25-36 | scheduling leaves the unmatched ids plus exactly one request for the task; scheduling again gives the same set |
| NotificationScheduler.RegisteredNoDuplicates | src/services/NotificationSchedulerService.ts:28-36 | registering keeps the pending ids distinct |
| NotificationScheduler.NotificationScheduler.GetScheduledNotifications | src/services/NotificationSchedulerService.ts:69-76 | the pending set, or [] when the query fails |
| NotificationScheduler.NotificationScheduler.CancelEach | src/services/NotificationSchedulerService.ts:53-55 | cancels the ids in order until one call fails and reports how many were done |
| NotificationScheduler.NotificationScheduler.CancelTaskNotifications | src/services/NotificationSchedulerService.ts:44-59 | an empty id or a failed query changes nothing; otherwise matching ids are cancelled up to the first failure, and all of them without one. Whatever fails, only ids with the prefix are removed and none is added |
| NotificationScheduler.NotificationScheduler.ScheduleTaskNotifications | src/services/NotificationSchedulerService.ts:11-42 | an empty id or title changes nothing; otherwise it cancels the task's ids and registers "<id>-scheduled"; failures are absorbed. Whatever fails, no id without the task's prefix is removed and nothing but "<id>-scheduled" is added |
| NotificationScheduler.NotificationScheduler.CancelAllNotifications | src/services/NotificationSchedulerService.ts:61-67 | empties the pending set unless the call fails |
| TaskNotifications.FlagReadings | src/services/TaskNotificationService.ts:13-42 | scheduling reads an unset flag as on and the toggle reads it as off; they differ exactly on the unset flag |
| TaskNotifications.TaskNotificationService.ScheduleForTask | src/services/TaskNotificationService.ts:12-26 | does nothing when reminders are off; otherwise schedules the task. Whatever fails, no id without the task's prefix is removed and nothing but "<id>-scheduled" is added |
| TaskNotifications.TaskNotificationService.CancelForTask | src/services/TaskNotificationService.ts:28-34 | cancels the task's ids up to the first failed cancellation; failures are absorbed, only ids with the prefix are removed and none is added |
| TaskNotifications.TaskNotificationService.UpdateForTask | src/services/TaskNotificationService.ts:36-39 | cancel then schedule: without failures the task's ids are cancelled and, when reminders are on, exactly one request of the task is added at the end. Whatever fails, no id without the task's prefix is removed and nothing but "<id>-scheduled" is added |
| TaskNotifications.TaskNotificationService.ToggleForTask | src/services/TaskNotificationService.ts:41-47 | schedules when the flag is true, otherwise cancels. Whatever fails, no id without the task's prefix is removed and nothing but "<id>-scheduled" is added |
| UserAuthentication.LoginOutcome | src/services/UserAuthenticationService.ts:17-56 | succeeds iff both credentials are present, the store is readable and holds exactly that username and password, returning the stored user; missing credentials are reported before the store is read; then an AppError from the load passes unchanged and any other load failure becomes LOGIN_VALIDATION_ERROR; then a missing account gives NO_USER_REGISTERED and a mismatch INVALID_CREDENTIALS with the attempted username |
| UserAuthentication.LoginAgreesWithUserService | src/services/UserAuthenticationService.ts:31-40 | with readable storage and present credentials, it accepts exactly what the plain user service accepts, returning the same user |
| UserAuthentication.PasswordCheck | src/services/UserAuthenticationService.ts:60-68 | passes iff both passwords are present and differ and the current one is the user's; with valid parameters a wrong current password gives INCORRECT_CURRENT_PASSWORD, and every other failure is the parameter check's own error |
| UserAuthentication.CheckOrderDiffers | src/services/UserAuthenticationService.ts:60-68 | reusing a wrong password is "same password" here but "wrong current password" in the plain user service |
| UserAuthentication.UserAuthentication.ValidateLogin | src/services/UserAuthenticationService.ts:17-56 | returns the login outcome; AppErrors propagate unchanged, other failures become LOGIN_VALIDATION_ERROR and only those are logged |
| UserAuthentication.UserAuthentication.UpdatePassword | src/services/UserAuthenticationService.ts:58-89 | a failed check saves nothing; a successful save stores and returns the user with only the password replaced; a plain save failure becomes PASSWORD_UPDATE_ERROR and is logged |
| UserAccounts.LoginDecision | src/services/UserService.ts:28-40 | succeeds iff the stored user has exactly that username and password; no stored user gives "No hay usuario registrado", a mismatch "Credenciales incorrectas" |
| UserAccounts.PasswordUpdate | src/services/UserService.ts:42-54 | the current-password check comes before the same-password rule; success returns the user with the new password |
| UserAccounts.PasswordUpdateReversible | src/services/UserService.ts:42-54 | changing the password back with the new one as current restores the original user |
| UserAccounts.UserService.SaveUser | src/services/UserService.ts:11-17 | stores the user, or reports the failure and keeps the old record |
| UserAccounts.UserService.GetUser | src/services/UserService.ts:19-26 | yields the stored record (none when nothing is stored), or the load failure |
| UserAccounts.UserService.ValidateLogin | src/services/UserService.ts:28-40 | the login decision over the stored record; a success returns the stored user |
| UserAccounts.UserService.UpdatePassword | src/services/UserService.ts:42-54 | a failed check saves nothing; a successful check saves and returns the updated user |
| AuthSession.AuthContext.Login | src/context/AuthContext.tsx:22-25 | authenticated with the given user |
| AuthSession.AuthContext.Logout | src/context/AuthContext.tsx:27-35 | clears the session and the stored record only when removal succeeds, otherwise nothing changes; keeps the flag in step with the user |
| AuthSession.AuthContext.CheckStoredUser | src/context/AuthContext.tsx:42-53 | restores the stored user and authenticates iff a record exists and can be read; keeps the flag in step with the user |
| ErrorHandling.ConvertToAppError | src/utils/ErrorHandler.ts:61-68 | a plain error becomes UNKNOWN without code, with its message or "Error desconocido", recording the original name |
| ErrorHandling.ToAppError | src/utils/ErrorHandler.ts:158 | an AppError passes through unchanged; anything else becomes UNKNOWN without a code and with a non-empty message |
| ErrorHandling.ToAppErrorIdempotent | src/utils/ErrorHandler.ts:157-172 | converting a converted error again changes nothing, so handleError followed by logError stores the error unchanged |
| ErrorHandling.ErrorTitlesDistinct | src/utils/ErrorHandler.ts:99-116 | each error type has its own title and UNKNOWN gets "Error" |
| ErrorHandling.UserFriendlyMessage | src/utils/ErrorHandler.ts:118-132 | NETWORK, STORAGE and NOTIFICATION get fixed texts; the others their own message or a fallback; never empty |
| ErrorHandling.ErrorAlert | src/utils/ErrorHandler.ts:90-97 | the dialog's title and message are never empty |
| ErrorHandling.AlertIdentifiesType | src/utils/ErrorHandler.ts:90-132 | two dialogs have the same title iff their errors have the same type, and network, storage and notification dialogs ignore the error's own message |
| ErrorHandling.ErrorStorage.StoreError | src/utils/ErrorHandler.ts:75-77 | appends the error |
| ErrorHandling.ErrorStorage.GetRecentErrors | src/utils/ErrorHandler.ts:79-81 | for limit ≥ 1 the last min(limit, n) errors in order; limit 0 gives all of them |
| ErrorHandling.ErrorStorage.ClearErrors | src/utils/ErrorHandler.ts:83-85 | empties the log |
| ErrorHandling.ErrorHandler.LogError | src/utils/ErrorHandler.ts:157-162 | stores exactly one error, the converted one |
| ErrorHandling.ErrorHandler.HandleError | src/utils/ErrorHandler.ts:164-172 | logs exactly once and shows the dialog only when asked |
| ErrorHandling.ErrorHandler.GetRecentErrors | src/utils/ErrorHandler.ts:174-176 | the log's most recent errors, `slice(-limit)` for every sign of the limit, as for the storage |
| ErrorHandling.ErrorHandler.ClearErrors | src/utils/ErrorHandler.ts:178-180 | empties the log |

## Left out

- Rendering, styling, navigation, animation and gesture physics: no rules to model.
- Foreign calls are not modelled: AsyncStorage, expo-notifications, `Alert.alert` and the console. Whether a call succeeds is a parameter. The dialogs a handler's outcome depends on are returned as values; the other informational dialogs are not. Console output is dropped.
- The persistence wrappers are not part of this model: TaskStorageService.ts, UserPersistenceService.ts and their JSON encoding. The stored value is a field holding the decoded data, and a value that fails to parse counts as a failed read. The load's rejection of a record with an empty username or password (CORRUPTED_USER_DATA) is not modelled: such a record, like one that fails to parse, counts as a failed read and is given as the load fault, and a record of that kind left in `stored` makes the login answer INVALID_CREDENTIALS where the program throws the storage error. The persistence service's own error log entries are not modelled: the JSON_PARSE_ERROR and USER_LOAD_ERROR entries of a failed load and the entry for a failed save.
- The notification plumbing, trigger and content are not part of this model: NotificationService, NotificationManager, the channels, the listeners and the strategies. A reminder is its request id in the pending set. `days`, `startTime` and `endTime` do not affect that set. The `-scheduled` request is registered with `trigger: null` (src/services/NotificationSchedulerService.ts:35), which the library presents at once; the model assumes the request stays pending until it is cancelled.
- NotificationScheduler.NotificationScheduler.constructor: assumes the OS reports distinct pending ids.
- `await`, timers and the `setTimeout` delays of the task-action hook are not modelled: each handler runs to completion in one step. Confirmation dialogs are the `confirmed` parameter.
- Task ids from `Date.now()` are not modelled: the fresh id is a parameter.
- AppError's timestamp and stack trace are not modelled.
- The ErrorHandler singleton is not modelled: each service holds its own handler object.
- Error details are maps from string to string. An original error object is recorded by its name. VALIDATION details that are not strings are dropped, such as `validateUserData`'s user summary.
- Runtime type checks (`typeof`, `Array.isArray`, null arguments) are not modelled: Dafny typing rules those inputs out. Absence is kept only where the code handles it, such as the logged-in user or a task's reminder flag.
- The `try`/`catch` around filtering and counting on the home screen is not modelled: that code cannot throw on well-typed data.
- TimeValidation.JsNumber: models `Number` on strings of decimal digits only. Any other string is NaN, and signs, spaces, decimals and exponents are not modelled. This matters only for the inline range check on malformed times, where NaN comparisons make it accept.
- String lengths count Dafny characters, not UTF-16 code units.
- DragAndDrop.RoundedIndex: the gesture offset and row height are integers and the row height is positive. `Math.round` of the true quotient is computed exactly with integers.
- DragAndDrop.DragState.OnDragMove: requires a recorded drag index within the list. A JavaScript `splice` at an out-of-range index would insert `undefined`.
- TaskActions.TaskActions.HandleToggleNotifications: TaskContext.tsx does not provide the `toggleTaskNotifications` callback that the home screen passes on, so as the app is wired the call throws a `TypeError` and the failure branch (`toggleFault` is `Some(MISSING_TOGGLE_CALLBACK)`) is the one always taken. The callback's effect on a task's flag is not modelled.
- The `@user` storage entry is read and written by three services, and each holds its own copy as a field: `AuthSession.AuthContext.stored`, `UserAccounts.UserService.stored` and `UserAuthentication.UserAuthentication.stored`. Nothing links a logout's removal to a later login check.
- `handleAsyncError` logs the converted error and then hands it to `handleError`, which logs it again. The handlers return the error instead of logging it.
- `deleteTask` does not cancel a task's reminders, and neither does the model.
- The inline task validator is modelled as written. The delegation and null-input verdict that its tests expect are absent from the code.
