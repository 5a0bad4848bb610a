/** The session state of context/AuthContext.tsx: whether someone is logged in and who. The
    `@user` storage entry is the `stored` field; whether a storage call succeeds is a
    parameter. */
module AuthSession {
  import opened Wrappers
  import opened UserAccounts

  class AuthContext {
    var isAuthenticated: bool
    var user: Option<User>
    var stored: Option<User>

    /** The flag says exactly whether there is a user. */
    predicate Consistent()
      reads this
    {
      isAuthenticated <==> user.Some?
    }

    /** The provider starts logged out. */
    constructor (stored: Option<User>)
      ensures !isAuthenticated && user == None && this.stored == stored
      ensures Consistent()
    {
      isAuthenticated := false;
      user := None;
      this.stored := stored;
    }

    /** `login` */
    method Login(userData: User)
      modifies this
      ensures isAuthenticated && user == Some(userData) && stored == old(stored)
      ensures Consistent()
    {
      isAuthenticated := true;
      user := Some(userData);
    }

    /** `logout`: removes the stored account and only then clears the session; if the removal
        fails, nothing changes. */
    method Logout(removeOk: bool)
      modifies this
      ensures removeOk ==> !isAuthenticated && user == None && stored == None
      ensures !removeOk ==> isAuthenticated == old(isAuthenticated) && user == old(user) && stored == old(stored)
      ensures old(Consistent()) ==> Consistent()
    {
      if removeOk {
        stored := None;
        isAuthenticated := false;
        user := None;
      }
    }

    /** `checkStoredUser`: restores the stored account into the session when there is one and
        it can be read; otherwise the session stays as it was. */
    method CheckStoredUser(readOk: bool)
      modifies this
      ensures readOk && old(stored).Some? ==> user == old(stored) && isAuthenticated
      ensures !(readOk && old(stored).Some?) ==> user == old(user) && isAuthenticated == old(isAuthenticated)
      ensures stored == old(stored)
      ensures old(Consistent()) ==> Consistent()
    {
      if readOk && stored.Some? {
        user := stored;
        isAuthenticated := true;
      }
    }
  }
}
