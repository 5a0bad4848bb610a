/** Login and password change of services/UserAuthenticationService.ts. The persisted account
    is the `stored` field; a failure of the persistence layer is a parameter (`None` when the
    call succeeds, otherwise what it throws). AppErrors propagate unchanged; any other error
    is wrapped in an AUTHENTICATION error, which is also written to the error log. */
module UserAuthentication {
  import opened Wrappers
  import opened ErrorHandling
  import opened UserAccounts
  import UserValidation

  const NO_USER_REGISTERED := Raise("No hay usuario registrado en este dispositivo", AUTHENTICATION, "NO_USER_REGISTERED")
  const INCORRECT_CURRENT_PASSWORD :=
    Raise("La contraseña actual es incorrecta", AUTHENTICATION, "INCORRECT_CURRENT_PASSWORD")

  function InvalidCredentials(username: string): AppError {
    AppError("Usuario o contraseña incorrectos", AUTHENTICATION, Some("INVALID_CREDENTIALS"),
             map["attemptedUsername" := username])
  }

  function LoginValidationError(username: string, original: JsError): AppError {
    AppError("Error durante la validación de login", AUTHENTICATION, Some("LOGIN_VALIDATION_ERROR"),
             map["username" := username, "originalError" := original.name])
  }

  function PasswordUpdateError(username: string, original: JsError): AppError {
    AppError("Error al actualizar la contraseña", AUTHENTICATION, Some("PASSWORD_UPDATE_ERROR"),
             map["username" := username, "originalError" := original.name])
  }

  /** The `catch` of `validateLogin`: an AppError as it is, anything else wrapped. */
  function LoginCatch(e: Thrown, username: string): AppError {
    match e
    case App(a) => a
    case Plain(p) => LoginValidationError(username, p)
  }

  /** The outcome of `validateLogin`: credentials are checked before the store is read; then a
      read failure, a missing account, and a mismatch, in that order. */
  function LoginOutcome(stored: Option<User>, username: string, password: string, loadFault: Option<Thrown>)
    : (r: Result<User, AppError>)
    ensures r.Success? <==> username != "" && password != "" && loadFault.None? && stored == Some(User(username, password))
    ensures r.Success? ==> r.value == stored.value
    ensures username == "" || password == "" ==> r == Failure(UserValidation.MISSING_CREDENTIALS)
    ensures username != "" && password != "" && loadFault.Some? && loadFault.value.App? ==>
              r == Failure(loadFault.value.app)
    ensures username != "" && password != "" && loadFault.Some? && loadFault.value.Plain? ==>
              r == Failure(LoginValidationError(username, loadFault.value.plain))
    ensures username != "" && password != "" && loadFault.None? && stored.None? ==> r == Failure(NO_USER_REGISTERED)
    ensures (username != "" && password != "" && loadFault.None? && stored.Some? &&
             stored.value != User(username, password)) ==> r == Failure(InvalidCredentials(username))
  {
    if UserValidation.ValidateLoginCredentials(username, password).Fail? then
      Failure(UserValidation.ValidateLoginCredentials(username, password).error)
    else if loadFault.Some? then Failure(LoginCatch(loadFault.value, username))
    else if stored.None? then Failure(NO_USER_REGISTERED)
    else if stored.value.username != username || stored.value.password != password then
      Failure(InvalidCredentials(username))
    else Success(stored.value)
  }

  /** When the store can be read and the credentials are present, this login accepts exactly
      what the plain account service accepts, and returns the same account. */
  lemma LoginAgreesWithUserService(stored: Option<User>, username: string, password: string)
    requires username != "" && password != ""
    ensures LoginOutcome(stored, username, password, None).Success?
            <==> UserAccounts.LoginDecision(stored, username, password).Success?
    ensures LoginOutcome(stored, username, password, None).Success? ==>
              LoginOutcome(stored, username, password, None).value == UserAccounts.LoginDecision(stored, username, password).value
  {
  }

  /** The outcome of `updatePassword` before saving: the parameter check (which includes the
      same-password rule) comes first, then the current-password check. */
  function PasswordCheck(currentPassword: string, newPassword: string, user: User): (r: Outcome<AppError>)
    ensures r == Pass <==> currentPassword != "" && newPassword != "" && newPassword != currentPassword
                           && currentPassword == user.password
    ensures (currentPassword != "" && newPassword != "" && newPassword != currentPassword &&
             currentPassword != user.password) ==> r == Fail(INCORRECT_CURRENT_PASSWORD)
    ensures r.Fail? && r != Fail(INCORRECT_CURRENT_PASSWORD) ==>
              r == UserValidation.ValidatePasswordChangeParams(currentPassword, newPassword, Some(user))
  {
    var params := UserValidation.ValidatePasswordChangeParams(currentPassword, newPassword, Some(user));
    if params.Fail? then params
    else if currentPassword != user.password then Fail(INCORRECT_CURRENT_PASSWORD)
    else Pass
  }

  /** The two services order their checks differently: reusing a wrong password as the new one
      is "same password" here, but "wrong current password" in the plain account service. */
  lemma CheckOrderDiffers()
    ensures PasswordCheck("abc", "abc", User("ana", "secreto")) == Fail(UserValidation.SAME_PASSWORD_ERROR)
    ensures UserAccounts.PasswordUpdate("abc", "abc", User("ana", "secreto")) == Failure(UserAccounts.WRONG_CURRENT)
  {
  }

  class UserAuthentication {
    /** The account held by the persistence service. */
    var stored: Option<User>
    const log: ErrorHandler

    constructor (stored: Option<User>, log: ErrorHandler)
      ensures this.stored == stored && this.log == log
    {
      this.stored := stored;
      this.log := log;
    }

    /** `validateLogin`: returns the stored account exactly when both fields match; wrapped
        errors, and only those, are logged. */
    method ValidateLogin(username: string, password: string, loadFault: Option<Thrown>)
      returns (r: Result<User, AppError>)
      modifies log.storage
      ensures r == LoginOutcome(stored, username, password, loadFault)
      ensures log.storage.errors ==
                old(log.storage.errors) +
                (if username != "" && password != "" && loadFault.Some? && loadFault.value.Plain?
                 then [r.error] else [])
    {
      var credentials := UserValidation.ValidateLoginCredentials(username, password);
      if credentials.Fail? {
        return Failure(credentials.error);
      }
      if loadFault.Some? {
        var appError := LoginCatch(loadFault.value, username);
        if loadFault.value.Plain? {
          log.LogError(App(appError));
        }
        return Failure(appError);
      }
      if stored.None? {
        return Failure(NO_USER_REGISTERED);
      }
      if stored.value.username != username || stored.value.password != password {
        return Failure(InvalidCredentials(username));
      }
      r := Success(stored.value);
    }

    /** `updatePassword`: after the checks, saves and returns the account with only its password
        replaced. A failed check saves nothing; a failed save keeps the old account, and a
        non-AppError failure is wrapped and logged. */
    method UpdatePassword(currentPassword: string, newPassword: string, user: User, saveFault: Option<Thrown>)
      returns (r: Result<User, AppError>)
      modifies this, log.storage
      ensures PasswordCheck(currentPassword, newPassword, user).Fail? ==>
                r == Failure(PasswordCheck(currentPassword, newPassword, user).error) && stored == old(stored)
                && log.storage.errors == old(log.storage.errors)
      ensures PasswordCheck(currentPassword, newPassword, user) == Pass && saveFault.None? ==>
                r == Success(User(user.username, newPassword)) && stored == Some(r.value)
                && log.storage.errors == old(log.storage.errors)
      ensures PasswordCheck(currentPassword, newPassword, user) == Pass && saveFault.Some? ==>
                stored == old(stored)
                && r == Failure(match saveFault.value
                                case App(a) => a
                                case Plain(p) => PasswordUpdateError(user.username, p))
                && log.storage.errors == old(log.storage.errors) + (if saveFault.value.Plain? then [r.error] else [])
    {
      var check := PasswordCheck(currentPassword, newPassword, user);
      if check.Fail? {
        return Failure(check.error);
      }
      var updatedUser := user.(password := newPassword);
      if saveFault.Some? {
        match saveFault.value
        case App(a) =>
          return Failure(a);
        case Plain(p) =>
          var appError := PasswordUpdateError(user.username, p);
          log.LogError(App(appError));
          return Failure(appError);
      }
      stored := Some(updatedUser);
      r := Success(updatedUser);
    }
  }
}
