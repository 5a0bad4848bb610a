/** The reminder-parameter checks of services/NotificationValidationService.ts: an id or a title
    that trims to the empty string is rejected with a VALIDATION `AppError` that records the
    offending values in its details. */
module NotificationValidation {
  import opened Wrappers
  import opened Text
  import opened ErrorHandling

  function InvalidTaskId(taskId: string): AppError {
    AppError("ID de tarea inválido para notificación", VALIDATION, Some("INVALID_TASK_ID"),
             map["taskId" := taskId])
  }

  function InvalidTaskTitle(taskId: string, title: string): AppError {
    AppError("Título de tarea inválido para notificación", VALIDATION, Some("INVALID_TASK_TITLE"),
             map["title" := title, "taskId" := taskId])
  }

  function InvalidTaskIdCancel(taskId: string): AppError {
    AppError("ID de tarea inválido", VALIDATION, Some("INVALID_TASK_ID_CANCEL"), map["taskId" := taskId])
  }

  /** `validateTaskParams`: the id is examined first, then the title. */
  function ValidateTaskParams(taskId: string, title: string): (r: Outcome<AppError>)
    ensures IsBlank(taskId) ==> r == Fail(InvalidTaskId(taskId))
    ensures !IsBlank(taskId) && IsBlank(title) ==> r == Fail(InvalidTaskTitle(taskId, title))
    ensures r == Pass <==> !IsBlank(taskId) && !IsBlank(title)
  {
    if taskId == "" || Trim(taskId) == "" then Fail(InvalidTaskId(taskId))
    else if title == "" || Trim(title) == "" then Fail(InvalidTaskTitle(taskId, title))
    else Pass
  }

  /** `validateTaskId`: fails exactly when the id trims to the empty string. */
  function ValidateTaskId(taskId: string): (r: Outcome<AppError>)
    ensures r.Fail? <==> IsBlank(taskId)
    ensures r.Fail? ==> r.error == InvalidTaskIdCancel(taskId)
  {
    if taskId == "" || Trim(taskId) == "" then Fail(InvalidTaskIdCancel(taskId)) else Pass
  }

  /** The id rule of the two checks is the same rule: they pass and fail together. */
  lemma SameIdRule(taskId: string, title: string)
    requires !IsBlank(title)
    ensures ValidateTaskParams(taskId, title).Fail? <==> ValidateTaskId(taskId).Fail?
  {
  }

  /** Tabs and newlines are whitespace; an id with a single visible character passes. */
  lemma IdExamples()
    ensures ValidateTaskId("\t\n ") == Fail(InvalidTaskIdCancel("\t\n "))
    ensures ValidateTaskParams(" 1 ", "Gym") == Pass
  {
    assert IsBlank("\t\n ");
    assert !IsWhitespace(" 1 "[1]);
    assert !IsWhitespace("Gym"[0]);
  }
}
