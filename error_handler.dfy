/** The application's error taxonomy (`AppError` with an `ErrorType`), the conversion of plain
    JavaScript errors into it, the user-facing titles and messages, and the in-memory error
    log kept by the `ErrorHandler` object (utils/ErrorHandler.ts). */
module ErrorHandling {
  import opened Wrappers

  datatype ErrorType = VALIDATION | NETWORK | STORAGE | AUTHENTICATION | NOTIFICATION | TASK | UNKNOWN

  /** `new AppError(message, type, code?, details?)`. `details` keeps the string-valued
      entries of the details object. */
  datatype AppError = AppError(message: string, kind: ErrorType, code: Option<string>,
                               details: map<string, string>)

  /** A plain JavaScript `Error`: its `name` and its `message`. */
  datatype JsError = JsError(name: string, message: string)

  /** What a `catch` receives in this code: an `AppError` or some other `Error`. */
  datatype Thrown = App(app: AppError) | Plain(plain: JsError)

  const UNKNOWN_ERROR_MESSAGE := "Error desconocido"

  /** `AppError(message, type, code)` with no details. */
  function Raise(message: string, kind: ErrorType, code: string): AppError {
    AppError(message, kind, Some(code), map[])
  }

  /** `ErrorConverter.convertToAppError`: a plain error becomes an UNKNOWN error without a code
      that keeps its message (or a fixed fallback when the message is empty) and records the
      original error's name. */
  function ConvertToAppError(e: JsError): (r: AppError)
    ensures r.kind == UNKNOWN && r.code == None
    ensures r.message == (if e.message != "" then e.message else UNKNOWN_ERROR_MESSAGE)
    ensures r.message != ""
    ensures "originalError" in r.details && r.details["originalError"] == e.name
  {
    AppError(if e.message != "" then e.message else UNKNOWN_ERROR_MESSAGE, UNKNOWN, None,
             map["originalError" := e.name])
  }

  /** `error instanceof AppError ? error : convertToAppError(error)`: an `AppError` passes
      through untouched, and anything else becomes an UNKNOWN error without a code whose
      message is never empty. */
  function ToAppError(e: Thrown): (r: AppError)
    ensures e.App? ==> r == e.app
    ensures e.Plain? ==> r.kind == UNKNOWN && r.code == None && r.message != ""
    ensures e.Plain? ==> r == ConvertToAppError(e.plain)
  {
    match e
    case App(a) => a
    case Plain(p) => ConvertToAppError(p)
  }

  /** Converting an already converted error changes nothing: `handleError` converts, then
      hands the result to `logError`, which converts again and stores the same error. */
  lemma ToAppErrorIdempotent(e: Thrown)
    ensures ToAppError(App(ToAppError(e))) == ToAppError(e)
  {
  }

  /** `ErrorAlertService.getErrorTitle`. */
  function ErrorTitle(kind: ErrorType): string {
    match kind
    case VALIDATION => "Error de Validación"
    case NETWORK => "Error de Conexión"
    case STORAGE => "Error de Almacenamiento"
    case AUTHENTICATION => "Error de Autenticación"
    case NOTIFICATION => "Error de Notificación"
    case TASK => "Error de Tarea"
    case UNKNOWN => "Error"
  }

  /** Every error type has its own title, and the unknown type gets the bare "Error". */
  lemma ErrorTitlesDistinct(a: ErrorType, b: ErrorType)
    ensures ErrorTitle(a) == ErrorTitle(b) <==> a == b
    ensures ErrorTitle(UNKNOWN) == "Error"
  {
  }

  const NETWORK_MESSAGE := "Revisa tu conexión a internet e intenta nuevamente."
  const STORAGE_MESSAGE := "No se pudo acceder al almacenamiento. Verifica que la aplicación tenga permisos."
  const NOTIFICATION_MESSAGE := "No se pudieron configurar las notificaciones. Verifica los permisos."
  const AUTHENTICATION_FALLBACK := "Error de autenticación. Intenta iniciar sesión nuevamente."
  const GENERIC_FALLBACK := "Ha ocurrido un error inesperado."

  /** `ErrorAlertService.getUserFriendlyMessage`: network, storage and notification errors get
      a fixed text that ignores the error's own message; the other types show their own
      message, or a fallback when it is empty. The message shown is never empty. */
  function UserFriendlyMessage(e: AppError): (r: string)
    ensures r != ""
    ensures e.kind == NETWORK ==> r == NETWORK_MESSAGE
    ensures e.kind == STORAGE ==> r == STORAGE_MESSAGE
    ensures e.kind == NOTIFICATION ==> r == NOTIFICATION_MESSAGE
    ensures e.kind !in {NETWORK, STORAGE, NOTIFICATION} && e.message != "" ==> r == e.message
    ensures e.kind == AUTHENTICATION && e.message == "" ==> r == AUTHENTICATION_FALLBACK
    ensures e.kind in {VALIDATION, TASK, UNKNOWN} && e.message == "" ==> r == GENERIC_FALLBACK
  {
    match e.kind
    case NETWORK => NETWORK_MESSAGE
    case STORAGE => STORAGE_MESSAGE
    case AUTHENTICATION => if e.message != "" then e.message else AUTHENTICATION_FALLBACK
    case NOTIFICATION => NOTIFICATION_MESSAGE
    case _ => if e.message != "" then e.message else GENERIC_FALLBACK
  }

  /** A blocking dialog with one acknowledgement button ("Entendido"). */
  datatype Alert = Alert(title: string, message: string)

  /** `ErrorAlertService.showErrorAlert`: the dialog shown for an error. Neither its title nor
      its message is ever empty. */
  function ErrorAlert(e: AppError): (a: Alert)
    ensures a.title != "" && a.message != ""
  {
    Alert(ErrorTitle(e.kind), UserFriendlyMessage(e))
  }

  /** The dialog's title tells the error types apart, and for network, storage and notification
      errors the dialog depends on the type alone, never on the error's own message. */
  lemma AlertIdentifiesType(e1: AppError, e2: AppError)
    ensures ErrorAlert(e1).title == ErrorAlert(e2).title <==> e1.kind == e2.kind
    ensures e1.kind == e2.kind && e1.kind in {NETWORK, STORAGE, NOTIFICATION} ==> ErrorAlert(e1) == ErrorAlert(e2)
  {
    ErrorTitlesDistinct(e1.kind, e2.kind);
  }

  /** `errors.slice(start)` in JavaScript: a negative start counts from the end, and the start
      is clamped to the array. */
  function SliceFrom<T>(s: seq<T>, start: int): seq<T> {
    var k := if start < 0 then (if |s| + start < 0 then 0 else |s| + start)
             else (if start < |s| then start else |s|);
    s[k..]
  }

  /** `ErrorStorage`: the list of errors logged so far, oldest first. */
  class ErrorStorage {
    var errors: seq<AppError>

    constructor ()
      ensures errors == []
    {
      errors := [];
    }

    /** `storeError`: appends. */
    method StoreError(e: AppError)
      modifies this
      ensures errors == old(errors) + [e]
    {
      errors := errors + [e];
    }

    /** `getRecentErrors(limit = 10)`, that is `errors.slice(-limit)`: for a positive limit the
        last `min(limit, n)` errors in the order they were logged; a limit of 0 gives every
        error, because `slice(-0)` is `slice(0)`. */
    method GetRecentErrors(limit: int := 10) returns (recent: seq<AppError>)
      ensures limit >= 1 ==> |recent| == (if limit < |errors| then limit else |errors|)
      ensures limit >= 1 ==> recent == errors[|errors| - |recent|..]
      ensures limit == 0 ==> recent == errors
      ensures limit < 0 ==> recent == errors[(if -limit < |errors| then -limit else |errors|)..]
    {
      recent := SliceFrom(errors, -limit);
    }

    /** `clearErrors`: empties the log. */
    method ClearErrors()
      modifies this
      ensures errors == []
    {
      errors := [];
    }
  }

  /** The `ErrorHandler` object: every error it is given is converted to an `AppError` and
      stored in its log; `handleError` also chooses the dialog to show. The console logger
      and the dialog itself are output only, so the dialog is returned. */
  class ErrorHandler {
    const storage: ErrorStorage

    constructor ()
      ensures fresh(storage) && storage.errors == []
    {
      storage := new ErrorStorage();
    }

    /** `logError`: stores exactly one error, the given one converted to an `AppError`. */
    method LogError(e: Thrown)
      modifies storage
      ensures storage.errors == old(storage.errors) + [ToAppError(e)]
    {
      storage.StoreError(ToAppError(e));
    }

    /** `handleError(error, showAlert = true)`: logs exactly once, and shows the dialog for the
        converted error only when `showAlert` is set. */
    method HandleError(e: Thrown, showAlert: bool := true) returns (shown: Option<Alert>)
      modifies storage
      ensures storage.errors == old(storage.errors) + [ToAppError(e)]
      ensures shown == if showAlert then Some(ErrorAlert(ToAppError(e))) else None
    {
      var appError := ToAppError(e);
      LogError(App(appError));
      shown := if showAlert then Some(ErrorAlert(appError)) else None;
    }

    method GetRecentErrors(limit: int := 10) returns (recent: seq<AppError>)
      ensures limit >= 1 ==> |recent| == (if limit < |storage.errors| then limit else |storage.errors|)
      ensures limit >= 1 ==> recent == storage.errors[|storage.errors| - |recent|..]
      ensures limit == 0 ==> recent == storage.errors
      ensures limit < 0 ==> recent == storage.errors[(if -limit < |storage.errors| then -limit else |storage.errors|)..]
    {
      recent := storage.GetRecentErrors(limit);
    }

    method ClearErrors()
      modifies storage
      ensures storage.errors == []
    {
      storage.ClearErrors();
    }
  }
}
