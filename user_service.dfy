/** The stored-account service of services/UserService.ts. The device keeps at most one account
    under the `@user` key; here that key's content is the `stored` field, and whether the
    storage read or write succeeds is a parameter of the operation that performs it. */
module UserAccounts {
  import opened Wrappers

  /** An account: `{ username, password }`. */
  datatype User = User(username: string, password: string)

  const SAVE_FAILED := "No se pudo guardar el usuario"
  const LOAD_FAILED := "No se pudo cargar el usuario"
  const NO_USER := "No hay usuario registrado"
  const BAD_CREDENTIALS := "Credenciales incorrectas"
  const WRONG_CURRENT := "La contraseña actual es incorrecta"
  const SAME_PASSWORD := "La nueva contraseña debe ser diferente a la actual"

  /** The decision of `validateLogin` once the stored account has been read. */
  function LoginDecision(stored: Option<User>, username: string, password: string): (r: Result<User, string>)
    ensures r.Success? <==> stored == Some(User(username, password))
    ensures r.Success? ==> r.value == stored.value
    ensures r.Failure? ==> r.error == (if stored.None? then NO_USER else BAD_CREDENTIALS)
  {
    if stored.None? then Failure(NO_USER)
    else if stored.value.username == username && stored.value.password == password then Success(stored.value)
    else Failure(BAD_CREDENTIALS)
  }

  /** The checks of `updatePassword`, current-password match first, and the account it saves. */
  function PasswordUpdate(currentPassword: string, newPassword: string, user: User): (r: Result<User, string>)
    ensures r.Success? <==> currentPassword == user.password && newPassword != currentPassword
    ensures currentPassword != user.password ==> r == Failure(WRONG_CURRENT)
    ensures currentPassword == user.password && newPassword == currentPassword ==> r == Failure(SAME_PASSWORD)
    ensures r.Success? ==> r.value == User(user.username, newPassword)
  {
    if currentPassword != user.password then Failure(WRONG_CURRENT)
    else if newPassword == currentPassword then Failure(SAME_PASSWORD)
    else Success(user.(password := newPassword))
  }

  /** A password change never renames the account, and applying it again with the new password
      as the current one and the old one as the new one restores the original account. */
  lemma PasswordUpdateReversible(currentPassword: string, newPassword: string, user: User)
    requires PasswordUpdate(currentPassword, newPassword, user).Success?
    ensures var changed := PasswordUpdate(currentPassword, newPassword, user).value;
            && changed.username == user.username
            && PasswordUpdate(newPassword, currentPassword, changed) == Success(user)
  {
  }

  class UserService {
    /** The content of the `@user` key, already parsed. */
    var stored: Option<User>

    constructor (initial: Option<User>)
      ensures stored == initial
    {
      stored := initial;
    }

    /** `saveUser`: overwrites the stored account, or fails with its fixed message and leaves the
        store as it was. */
    method SaveUser(user: User, writeOk: bool) returns (r: Outcome<string>)
      modifies this
      ensures writeOk ==> r == Pass && stored == Some(user)
      ensures !writeOk ==> r == Fail(SAVE_FAILED) && stored == old(stored)
    {
      if writeOk {
        stored := Some(user);
        r := Pass;
      } else {
        r := Fail(SAVE_FAILED);
      }
    }

    /** `getUser`: the stored account or `null` (None), or a load failure. It changes nothing,
        so a `getUser` right after a successful `saveUser(u)` yields `u`. */
    method GetUser(readOk: bool) returns (r: Result<Option<User>, string>)
      ensures readOk ==> r == Success(stored)
      ensures !readOk ==> r == Failure(LOAD_FAILED)
    {
      if readOk {
        r := Success(stored);
      } else {
        r := Failure(LOAD_FAILED);
      }
    }

    /** `validateLogin`: reads the store (a load failure propagates) and returns the stored
        account exactly when both its fields equal the given ones. */
    method ValidateLogin(username: string, password: string, readOk: bool) returns (r: Result<User, string>)
      ensures !readOk ==> r == Failure(LOAD_FAILED)
      ensures readOk ==> r == LoginDecision(stored, username, password)
      ensures r.Success? ==> stored == Some(r.value) && r.value == User(username, password)
    {
      var loaded := GetUser(readOk);
      if loaded.Failure? {
        return Failure(loaded.error);
      }
      var storedUser := loaded.value;
      if storedUser.None? {
        return Failure(NO_USER);
      }
      if storedUser.value.username == username && storedUser.value.password == password {
        r := Success(storedUser.value);
      } else {
        r := Failure(BAD_CREDENTIALS);
      }
    }

    /** `updatePassword`: checks that `currentPassword` is the account's password, then that the
        new one differs, then saves and returns the account with only its password replaced. A
        failed check saves nothing; a failed save propagates its error. */
    method UpdatePassword(currentPassword: string, newPassword: string, user: User, writeOk: bool)
      returns (r: Result<User, string>)
      modifies this
      ensures PasswordUpdate(currentPassword, newPassword, user).Failure? ==>
                r == PasswordUpdate(currentPassword, newPassword, user) && stored == old(stored)
      ensures PasswordUpdate(currentPassword, newPassword, user).Success? && writeOk ==>
                r == PasswordUpdate(currentPassword, newPassword, user) && stored == Some(r.value)
      ensures PasswordUpdate(currentPassword, newPassword, user).Success? && !writeOk ==>
                r == Failure(SAVE_FAILED) && stored == old(stored)
    {
      if currentPassword != user.password {
        return Failure(WRONG_CURRENT);
      }
      if newPassword == currentPassword {
        return Failure(SAME_PASSWORD);
      }
      var updatedUser := user.(password := newPassword);
      var saved := SaveUser(updatedUser, writeOk);
      if saved.Fail? {
        return Failure(saved.error);
      }
      r := Success(updatedUser);
    }
  }
}
