/** The account checks of services/UserValidationService.ts. Each check throws a VALIDATION
    `AppError` or returns normally; here it returns `Fail(error)` or `Pass`. The JavaScript
    truthiness test on a string is the test for the empty string: nothing is trimmed. */
module UserValidation {
  import opened Wrappers
  import opened ErrorHandling
  import opened UserAccounts

  const INVALID_USER_DATA := Raise("Datos de usuario inválidos", VALIDATION, "INVALID_USER_DATA")
  const MISSING_CREDENTIALS := Raise("Usuario y contraseña son requeridos", VALIDATION, "MISSING_CREDENTIALS")
  const INVALID_PASSWORD_CHANGE_PARAMS :=
    Raise("Parámetros inválidos para cambio de contraseña", VALIDATION, "INVALID_PASSWORD_CHANGE_PARAMS")
  const SAME_PASSWORD_ERROR := Raise("La nueva contraseña debe ser diferente a la actual", VALIDATION, "SAME_PASSWORD")

  /** `validateUserData`: an absent account, or one with an empty username or password, fails. */
  function ValidateUserData(user: Option<User>): (r: Outcome<AppError>)
    ensures r.Fail? <==> user.None? || user.value.username == "" || user.value.password == ""
    ensures r.Fail? ==> r.error == INVALID_USER_DATA
  {
    if user.None? || user.value.username == "" || user.value.password == "" then Fail(INVALID_USER_DATA)
    else Pass
  }

  /** `validateLoginCredentials`: fails exactly when either string is empty. */
  function ValidateLoginCredentials(username: string, password: string): (r: Outcome<AppError>)
    ensures r.Fail? <==> username == "" || password == ""
    ensures r.Fail? ==> r.error == MISSING_CREDENTIALS
  {
    if username == "" || password == "" then Fail(MISSING_CREDENTIALS) else Pass
  }

  /** `validatePasswordChangeParams`: a missing value is reported before an unchanged password. */
  function ValidatePasswordChangeParams(currentPassword: string, newPassword: string, user: Option<User>)
    : (r: Outcome<AppError>)
    ensures currentPassword == "" || newPassword == "" || user.None? ==> r == Fail(INVALID_PASSWORD_CHANGE_PARAMS)
    ensures currentPassword != "" && newPassword != "" && user.Some? ==>
              (r == Fail(SAME_PASSWORD_ERROR) <==> newPassword == currentPassword)
    ensures r == Pass <==> currentPassword != "" && newPassword != "" && user.Some? && newPassword != currentPassword
  {
    if currentPassword == "" || newPassword == "" || user.None? then Fail(INVALID_PASSWORD_CHANGE_PARAMS)
    else if newPassword == currentPassword then Fail(SAME_PASSWORD_ERROR)
    else Pass
  }

  /** Missing values win over the same-password rule: two empty passwords give the first error. */
  lemma MissingBeatsSame(user: Option<User>)
    ensures ValidatePasswordChangeParams("", "", user) == Fail(INVALID_PASSWORD_CHANGE_PARAMS)
    ensures ValidatePasswordChangeParams("", "", user) != Fail(SAME_PASSWORD_ERROR)
  {
    assert INVALID_PASSWORD_CHANGE_PARAMS.code == Some("INVALID_PASSWORD_CHANGE_PARAMS");
    assert SAME_PASSWORD_ERROR.code == Some("SAME_PASSWORD");
    assert "INVALID_PASSWORD_CHANGE_PARAMS"[0] != "SAME_PASSWORD"[0];
  }

  /** Whitespace counts as present: a blank current password and a different blank new one pass. */
  lemma WhitespaceIsPresent(user: User)
    ensures ValidatePasswordChangeParams(" ", "  ", Some(user)) == Pass
    ensures ValidateLoginCredentials(" ", "\t") == Pass
  {
  }
}
