/** The static credential checks of utils/validation.ts (`ValidationUtils`): three single rules and
    the registration and password-change forms built from them as first-failure chains. */
module ValidationUtils {
  import opened Text
  import opened Verdicts

  const PASSWORDS_DIFFER := "Las contraseñas no coinciden"
  const DEFAULT_MIN_LENGTH := 6

  /** `${fieldName} es obligatorio` */
  function RequiredMessage(fieldName: string): string {
    fieldName + " es obligatorio"
  }

  /** `La contraseña debe tener al menos ${minLength} caracteres` */
  function LengthMessage(minLength: int): string {
    "La contraseña debe tener al menos " + IntToString(minLength) + " caracteres"
  }

  /** `validateRequired`: the empty string and a whitespace-only string both fail (the second
      test trims; the first is implied by it). */
  function ValidateRequired(value: string, fieldName: string): (r: Verdict)
    ensures r.Valid? <==> !IsBlank(value)
    ensures r.Invalid? ==> r.error == RequiredMessage(fieldName)
  {
    if value == "" || Trim(value) == "" then Invalid(RequiredMessage(fieldName)) else Valid
  }

  /** `validatePasswordMatch`: fails exactly when the two strings differ. */
  function ValidatePasswordMatch(password: string, confirmPassword: string): (r: Verdict)
    ensures r.Valid? <==> password == confirmPassword
    ensures r.Invalid? ==> r.error == PASSWORDS_DIFFER
  {
    if password != confirmPassword then Invalid(PASSWORDS_DIFFER) else Valid
  }

  /** `validatePasswordLength`: fails exactly when the untrimmed length is below `minLength`. */
  function ValidatePasswordLength(password: string, minLength: int := DEFAULT_MIN_LENGTH): (r: Verdict)
    ensures r.Valid? <==> |password| >= minLength
    ensures r.Invalid? ==> r.error == LengthMessage(minLength)
  {
    if |password| < minLength then Invalid(LengthMessage(minLength)) else Valid
  }

  /** The checks of `validateRegistrationForm`, in the order it runs them. */
  function RegistrationChecks(username: string, password: string, confirmPassword: string): seq<Verdict> {
    [ValidateRequired(username, "Usuario"), ValidateRequired(password, "Contraseña"),
     ValidateRequired(confirmPassword, "Confirmar contraseña"), ValidatePasswordLength(password),
     ValidatePasswordMatch(password, confirmPassword)]
  }

  /** `validateRegistrationForm`: username, password and confirmation required, then the length
      of the password, then the match; the first failure is returned. */
  function ValidateRegistrationForm(username: string, password: string, confirmPassword: string): Verdict {
    var usernameVerdict := ValidateRequired(username, "Usuario");
    if usernameVerdict.Invalid? then usernameVerdict
    else
      var passwordVerdict := ValidateRequired(password, "Contraseña");
      if passwordVerdict.Invalid? then passwordVerdict
      else
        var confirmVerdict := ValidateRequired(confirmPassword, "Confirmar contraseña");
        if confirmVerdict.Invalid? then confirmVerdict
        else
          var lengthVerdict := ValidatePasswordLength(password);
          if lengthVerdict.Invalid? then lengthVerdict
          else ValidatePasswordMatch(password, confirmPassword)
  }

  /** The checks of `validatePasswordChangeForm`, in the order it runs them. */
  function PasswordChangeChecks(currentPassword: string, newPassword: string, confirmPassword: string): seq<Verdict> {
    [ValidateRequired(currentPassword, "Contraseña actual"), ValidateRequired(newPassword, "Nueva contraseña"),
     ValidateRequired(confirmPassword, "Confirmar nueva contraseña"), ValidatePasswordLength(newPassword),
     ValidatePasswordMatch(newPassword, confirmPassword)]
  }

  /** `validatePasswordChangeForm`: the same chain over the three password fields, with length and
      match applied to the new password and its confirmation. */
  function ValidatePasswordChangeForm(currentPassword: string, newPassword: string, confirmPassword: string): Verdict {
    var currentVerdict := ValidateRequired(currentPassword, "Contraseña actual");
    if currentVerdict.Invalid? then currentVerdict
    else
      var newVerdict := ValidateRequired(newPassword, "Nueva contraseña");
      if newVerdict.Invalid? then newVerdict
      else
        var confirmVerdict := ValidateRequired(confirmPassword, "Confirmar nueva contraseña");
        if confirmVerdict.Invalid? then confirmVerdict
        else
          var lengthVerdict := ValidatePasswordLength(newPassword);
          if lengthVerdict.Invalid? then lengthVerdict
          else ValidatePasswordMatch(newPassword, confirmPassword)
  }

  /** The registration form returns the first failing check of its chain. */
  lemma RegistrationIsFirstFailure(username: string, password: string, confirmPassword: string)
    ensures ValidateRegistrationForm(username, password, confirmPassword)
            == FirstFailure(RegistrationChecks(username, password, confirmPassword))
  {
    var c := RegistrationChecks(username, password, confirmPassword);
    FirstFailureOfFive(c[0], c[1], c[2], c[3], c[4]);
  }

  /** A registration is accepted exactly when the username and both passwords contain a
      non-whitespace character, the password has at least six characters and both passwords
      are equal. */
  lemma RegistrationValidIff(username: string, password: string, confirmPassword: string)
    ensures ValidateRegistrationForm(username, password, confirmPassword) == Valid <==>
            !IsBlank(username) && !IsBlank(password) && !IsBlank(confirmPassword)
            && |password| >= 6 && password == confirmPassword
  {
  }

  /** A blank username is reported first, whatever the passwords are. */
  lemma RegistrationUsernameFirst(username: string, password: string, confirmPassword: string)
    requires IsBlank(username)
    ensures ValidateRegistrationForm(username, password, confirmPassword) == Invalid("Usuario es obligatorio")
  {
  }

  /** With every field present, a short password is reported before a mismatch. */
  lemma RegistrationLengthBeforeMatch(username: string, password: string, confirmPassword: string)
    requires !IsBlank(username) && !IsBlank(password) && !IsBlank(confirmPassword)
    requires |password| < 6
    ensures ValidateRegistrationForm(username, password, confirmPassword) == Invalid(LengthMessage(6))
  {
  }

  /** The password-change form returns the first failing check of its chain. */
  lemma PasswordChangeIsFirstFailure(currentPassword: string, newPassword: string, confirmPassword: string)
    ensures ValidatePasswordChangeForm(currentPassword, newPassword, confirmPassword)
            == FirstFailure(PasswordChangeChecks(currentPassword, newPassword, confirmPassword))
  {
    var c := PasswordChangeChecks(currentPassword, newPassword, confirmPassword);
    FirstFailureOfFive(c[0], c[1], c[2], c[3], c[4]);
  }

  /** A password change is accepted exactly when all three fields are present, the new password
      has at least six characters and matches its confirmation. */
  lemma PasswordChangeValidIff(currentPassword: string, newPassword: string, confirmPassword: string)
    ensures ValidatePasswordChangeForm(currentPassword, newPassword, confirmPassword) == Valid <==>
            !IsBlank(currentPassword) && !IsBlank(newPassword) && !IsBlank(confirmPassword)
            && |newPassword| >= 6 && newPassword == confirmPassword
  {
  }

  /** The current password is only tested for presence: any two present current passwords give
      the same verdict, so a new password equal to the current one is not caught here. */
  lemma CurrentPasswordOnlyRequired(current1: string, current2: string, newPassword: string, confirmPassword: string)
    requires !IsBlank(current1) && !IsBlank(current2)
    ensures ValidatePasswordChangeForm(current1, newPassword, confirmPassword)
            == ValidatePasswordChangeForm(current2, newPassword, confirmPassword)
  {
  }

  /** A change to the same password passes the form. */
  lemma SamePasswordPassesForm()
    ensures ValidatePasswordChangeForm("secreto", "secreto", "secreto") == Valid
  {
    assert !IsWhitespace("secreto"[0]);
    PasswordChangeValidIff("secreto", "secreto", "secreto");
  }
}
