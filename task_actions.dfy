/** The home screen's task handlers of hooks/useTaskActions.ts: the modal state they drive
    (form modal, detail modal, edit mode, selected task) and the registry calls they make. A
    handler that rejects its input reports the `AppError` it would hand to the error handler;
    the confirmation dialogs' answers are parameters, and the 150 ms and 100 ms delays before
    some state updates are collapsed. */
module TaskActions {
  import opened Wrappers
  import opened ErrorHandling
  import opened TaskRegistry

  const INVALID_TASK_SELECTED := Raise("Tarea inválida seleccionada", VALIDATION, "INVALID_TASK_SELECTED")
  const INVALID_TASK_EDIT := Raise("Tarea inválida para edición", VALIDATION, "INVALID_TASK_EDIT")
  const INVALID_TASK_ID_DELETE := Raise("ID de tarea inválido para eliminación", VALIDATION, "INVALID_TASK_ID_DELETE")
  const INVALID_TASK_ID_COMPLETE := Raise("ID de tarea inválido para completar", VALIDATION, "INVALID_TASK_ID_COMPLETE")
  const INVALID_TASK_ID_STATUS := Raise("ID de tarea inválido para cambio de estado", VALIDATION, "INVALID_TASK_ID_STATUS")
  const INVALID_TASK_ID_NOTIFICATIONS :=
    Raise("ID de tarea inválido para notificaciones", VALIDATION, "INVALID_TASK_ID_NOTIFICATIONS")

  function TaskNotFound(taskId: string): AppError {
    AppError("Tarea no encontrada", TASK, Some("TASK_NOT_FOUND"), map["taskId" := taskId])
  }

  function TaskNotFoundForNotifications(taskId: string): AppError {
    AppError("Tarea no encontrada para notificaciones", TASK, Some("TASK_NOT_FOUND_NOTIFICATIONS"),
             map["taskId" := taskId])
  }

  /** The dialog shown after a confirmed completion. */
  const TASK_COMPLETED_ALERT := Alert("¡Excelente!", "Tarea completada correctamente")

  const NOTIFICATION_TOGGLE_CONTEXT := "Notification toggle"

  /** The error the home screen's toggle callback throws as the screen is wired: the task
      registry provides no `toggleTaskNotifications`, so calling it is a `TypeError`. Its
      message is the wording of one JavaScript engine; others word it differently. */
  const MISSING_TOGGLE_CALLBACK := JsError("TypeError", "toggleTaskNotifications is not a function")

  /** What `handleAsyncError` makes of a plain error thrown inside its operation: an UNKNOWN
      `ASYNC_ERROR` with the error's own message, the context and the original error's name. */
  function AsyncError(e: JsError, context: string): AppError {
    AppError(e.message, UNKNOWN, Some("ASYNC_ERROR"), map["context" := context, "originalError" := e.name])
  }

  /** As the screen is wired, the notification toggle of a found task ends in the generic error
      dialog, titled "Error" and showing the `TypeError`'s message, and never in the
      "Notificaciones activadas/desactivadas" dialog. */
  lemma WiredToggleShowsError()
    ensures var reported := AsyncError(MISSING_TOGGLE_CALLBACK, NOTIFICATION_TOGGLE_CONTEXT);
            ErrorAlert(ToAppError(App(reported))) == Alert("Error", MISSING_TOGGLE_CALLBACK.message)
  {
  }

  /** The status toggle: no status, then in progress, then completed, then no status again. */
  function NextStatus(s: Status): (r: Status)
    ensures r != s
  {
    match s
    case Unset => InProgress
    case InProgress => Completed
    case Completed => Unset
  }

  /** Three toggles restore any status, and every status is reached from exactly one other. */
  lemma StatusCycle(s: Status, t: Status)
    ensures NextStatus(NextStatus(NextStatus(s))) == s
    ensures NextStatus(s) == NextStatus(t) ==> s == t
  {
  }

  /** What one status toggle of `taskId` does to the list it is looked up in: the status of the
      first task with that id is advanced, and written to every task with that id. */
  function ToggledStatus(tasks: seq<Task>, taskId: string): seq<Task> {
    var found := TaskById(tasks, taskId);
    if found.None? then tasks else WithStatus(tasks, taskId, NextStatus(found.value.status))
  }

  /** When the tasks with that id agree on their status (in particular when ids are unique),
      three toggles give back the original list. */
  lemma {:induction false} ThreeTogglesRestore(tasks: seq<Task>, taskId: string)
    requires forall i, j :: 0 <= i < |tasks| && 0 <= j < |tasks| && tasks[i].id == taskId && tasks[j].id == taskId
               ==> tasks[i].status == tasks[j].status
    ensures ToggledStatus(ToggledStatus(ToggledStatus(tasks, taskId), taskId), taskId) == tasks
  {
    var found := TaskById(tasks, taskId);
    if found.Some? {
      var s := found.value.status;
      var once := WithStatus(tasks, taskId, NextStatus(s));
      TaskByIdAfterPatch(tasks, taskId, NextStatus(s));
      var twice := WithStatus(once, taskId, NextStatus(NextStatus(s)));
      TaskByIdAfterPatch(once, taskId, NextStatus(NextStatus(s)));
      WithStatusOverrides(tasks, taskId, NextStatus(s), NextStatus(NextStatus(s)));
      assert ToggledStatus(once, taskId) == twice;
      TaskByIdAfterPatch(twice, taskId, NextStatus(NextStatus(NextStatus(s))));
      WithStatusOverrides(tasks, taskId, NextStatus(NextStatus(s)), NextStatus(NextStatus(NextStatus(s))));
      StatusCycle(s, s);
      var i :| 0 <= i < |tasks| && tasks[i] == found.value && found.value.id == taskId;
      WithStatusUnchanged(tasks, taskId, s);
    }
  }

  /** The state of the hook: which modal is open, whether the form edits, and the selection. */
  class TaskActions {
    var isModalVisible: bool
    var isViewModalVisible: bool
    var isEditMode: bool
    var selectedTask: Option<Task>
    /** The registry whose `addTask`, `updateTask`, `updateTaskStatus` and `deleteTask` the
        handlers call. */
    const registry: TaskStore

    constructor (registry: TaskStore)
      ensures !isModalVisible && !isViewModalVisible && !isEditMode && selectedTask == None
      ensures this.registry == registry
    {
      isModalVisible := false;
      isViewModalVisible := false;
      isEditMode := false;
      selectedTask := None;
      this.registry := registry;
    }

    /** `closeModal`: hides the form, leaves edit mode and drops the selection. */
    method CloseModal()
      modifies this
      ensures !isModalVisible && !isEditMode && selectedTask == None
      ensures isViewModalVisible == old(isViewModalVisible)
    {
      isModalVisible := false;
      isEditMode := false;
      selectedTask := None;
    }

    /** `closeViewModal`: hides the detail view and (after a delay) drops the selection. */
    method CloseViewModal()
      modifies this
      ensures !isViewModalVisible && selectedTask == None
      ensures isModalVisible == old(isModalVisible) && isEditMode == old(isEditMode)
    {
      isViewModalVisible := false;
      selectedTask := None;
    }

    /** `openNewTask`: clears the selection and opens the form in create mode. */
    method OpenNewTask()
      modifies this
      ensures isModalVisible && !isEditMode && selectedTask == None
      ensures isViewModalVisible == old(isViewModalVisible)
    {
      selectedTask := None;
      isEditMode := false;
      isModalVisible := true;
    }

    /** `handleTaskCreated`: the form's task updates the registry in edit mode with a selection,
        and is added otherwise (the registry catches its own write failures); then the form
        closes. */
    method HandleTaskCreated(task: Task, writeOk: bool)
      modifies this, registry
      ensures var editing := old(isEditMode) && old(selectedTask).Some?;
              registry.tasks == (if !writeOk then old(registry.tasks)
                                 else if editing then Replaced(old(registry.tasks), task)
                                 else old(registry.tasks) + [task])
      ensures registry.stored == (if writeOk then Some(registry.tasks) else old(registry.stored))
      ensures registry.isLoading == old(registry.isLoading)
      ensures !isModalVisible && !isEditMode && selectedTask == None
      ensures isViewModalVisible == old(isViewModalVisible)
    {
      if isEditMode && selectedTask.Some? {
        registry.UpdateTask(task, writeOk);
      } else {
        registry.AddTask(task, writeOk);
      }
      CloseModal();
    }

    /** `handleTaskPress`: a task without an id is reported; otherwise it is selected and its
        detail view opens. */
    method HandleTaskPress(task: Task) returns (reported: Option<AppError>)
      modifies this
      ensures task.id == "" ==> reported == Some(INVALID_TASK_SELECTED) && selectedTask == old(selectedTask)
                                && isViewModalVisible == old(isViewModalVisible)
      ensures task.id != "" ==> reported == None && selectedTask == Some(task) && isViewModalVisible
      ensures isModalVisible == old(isModalVisible) && isEditMode == old(isEditMode)
    {
      if task.id == "" {
        return Some(INVALID_TASK_SELECTED);
      }
      selectedTask := Some(task);
      isViewModalVisible := true;
      reported := None;
    }

    /** `handleEditTask`: a task without an id is reported; otherwise the detail view closes and
        the form opens in edit mode on that task. */
    method HandleEditTask(task: Task) returns (reported: Option<AppError>)
      modifies this
      ensures task.id == "" ==> reported == Some(INVALID_TASK_EDIT)
                                && isModalVisible == old(isModalVisible) && isViewModalVisible == old(isViewModalVisible)
                                && isEditMode == old(isEditMode) && selectedTask == old(selectedTask)
      ensures task.id != "" ==> reported == None && !isViewModalVisible
                                && selectedTask == Some(task) && isEditMode && isModalVisible
    {
      if task.id == "" {
        return Some(INVALID_TASK_EDIT);
      }
      isViewModalVisible := false;
      selectedTask := Some(task);
      isEditMode := true;
      isModalVisible := true;
      reported := None;
    }

    /** `handleDeleteTask`: an empty id is reported and nothing is asked; otherwise the task is
        deleted once the user confirms. */
    method HandleDeleteTask(taskId: string, confirmed: bool, writeOk: bool) returns (reported: Option<AppError>)
      modifies registry
      ensures reported == (if taskId == "" then Some(INVALID_TASK_ID_DELETE) else None)
      ensures registry.tasks == (if taskId != "" && confirmed && writeOk then Without(old(registry.tasks), taskId)
                                 else old(registry.tasks))
      ensures registry.stored == (if taskId != "" && confirmed && writeOk then Some(registry.tasks) else old(registry.stored))
      ensures registry.isLoading == old(registry.isLoading)
    {
      if taskId == "" {
        return Some(INVALID_TASK_ID_DELETE);
      }
      if confirmed {
        registry.DeleteTask(taskId, writeOk);
      }
      reported := None;
    }

    /** `handleCompleteTask`: the same guard; a confirmed completion deletes the task and then
        shows the success dialog. The registry swallows its own write failures, so the dialog
        appears after every confirmed completion, whether or not the task was removed. */
    method HandleCompleteTask(taskId: string, confirmed: bool, writeOk: bool)
      returns (reported: Option<AppError>, shown: Option<Alert>)
      modifies registry
      ensures reported == (if taskId == "" then Some(INVALID_TASK_ID_COMPLETE) else None)
      ensures shown == (if taskId != "" && confirmed then Some(TASK_COMPLETED_ALERT) else None)
      ensures registry.tasks == (if taskId != "" && confirmed && writeOk then Without(old(registry.tasks), taskId)
                                 else old(registry.tasks))
      ensures registry.stored == (if taskId != "" && confirmed && writeOk then Some(registry.tasks) else old(registry.stored))
      ensures registry.isLoading == old(registry.isLoading)
    {
      if taskId == "" {
        return Some(INVALID_TASK_ID_COMPLETE), None;
      }
      shown := None;
      if confirmed {
        registry.DeleteTask(taskId, writeOk);
        shown := Some(TASK_COMPLETED_ALERT);
      }
      reported := None;
    }

    /** `handleToggleTaskStatus`: an empty id and an id absent from `userTasks` are reported and
        leave the registry alone; otherwise every task with that id gets the next status after
        the found task's. */
    method HandleToggleTaskStatus(taskId: string, userTasks: seq<Task>, writeOk: bool)
      returns (reported: Option<AppError>)
      modifies registry
      ensures taskId == "" ==> reported == Some(INVALID_TASK_ID_STATUS)
      ensures taskId != "" && TaskById(userTasks, taskId).None? ==> reported == Some(TaskNotFound(taskId))
      ensures reported.Some? ==> registry.tasks == old(registry.tasks) && registry.stored == old(registry.stored)
      ensures reported.None? <==> taskId != "" && TaskById(userTasks, taskId).Some?
      ensures reported.None? ==>
                registry.tasks == (if writeOk then WithStatus(old(registry.tasks), taskId,
                                                            NextStatus(TaskById(userTasks, taskId).value.status))
                                   else old(registry.tasks))
      ensures reported.None? ==> registry.stored == (if writeOk then Some(registry.tasks) else old(registry.stored))
      ensures registry.isLoading == old(registry.isLoading)
    {
      if taskId == "" {
        return Some(INVALID_TASK_ID_STATUS);
      }
      var task := TaskById(userTasks, taskId);
      if task.None? {
        return Some(TaskNotFound(taskId));
      }
      registry.UpdateTaskStatus(taskId, NextStatus(task.value.status), writeOk);
      reported := None;
    }

    /** `handleToggleNotifications`: the same guards, then the awaited toggle callback. When the
        callback throws a plain error, `handleAsyncError` reports it converted and no new state
        is announced; otherwise the new state is the negation of the task's flag, so an unset
        flag reads as turning notifications on. */
    method HandleToggleNotifications(taskId: string, userTasks: seq<Task>, toggleFault: Option<JsError>)
      returns (reported: Option<AppError>, newState: Option<bool>)
      ensures taskId == "" ==> reported == Some(INVALID_TASK_ID_NOTIFICATIONS) && newState == None
      ensures taskId != "" && TaskById(userTasks, taskId).None? ==>
                reported == Some(TaskNotFoundForNotifications(taskId)) && newState == None
      ensures taskId != "" && TaskById(userTasks, taskId).Some? && toggleFault.Some? ==>
                reported == Some(AsyncError(toggleFault.value, NOTIFICATION_TOGGLE_CONTEXT)) && newState == None
      ensures taskId != "" && TaskById(userTasks, taskId).Some? && toggleFault.None? ==>
                reported == None && newState == Some(TaskById(userTasks, taskId).value.notificationsEnabled != Some(true))
      ensures newState.Some? <==> reported.None?
    {
      if taskId == "" {
        return Some(INVALID_TASK_ID_NOTIFICATIONS), None;
      }
      var task := TaskById(userTasks, taskId);
      if task.None? {
        return Some(TaskNotFoundForNotifications(taskId)), None;
      }
      if toggleFault.Some? {
        return Some(AsyncError(toggleFault.value, NOTIFICATION_TOGGLE_CONTEXT)), None;
      }
      reported := None;
      newState := Some(!(task.value.notificationsEnabled == Some(true)));
    }
  }
}
