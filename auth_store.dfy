/**
 * The client session store of `lib/store/auth-store.ts`: one field, `user`,
 * with the two actions that replace it.
 */
module Auth {
  import opened DatabaseTypes

  /** The user kept for the session. */
  datatype User = User(id: string, email: string, role: UserRole, fullName: Option<string>)

  class AuthStore {
    var user: Option<User>

    /** The store starts with nobody logged in. */
    constructor ()
      ensures user == None
    {
      user := None;
    }

    /** `setUser`: the stored user becomes exactly the argument, which may be null. */
    method SetUser(u: Option<User>)
      modifies this
      ensures user == u
    {
      user := u;
    }

    /** `logout`: the stored user is cleared. */
    method Logout()
      modifies this
      ensures user == None
    {
      user := None;
    }
  }

  /** Two stores that agree before agree after logging out once and logging out twice. */
  method LogoutIsIdempotent(once: AuthStore, twice: AuthStore)
    requires once != twice && once.user == twice.user
    modifies once, twice
    ensures once.user == twice.user == None
  {
    once.Logout();
    twice.Logout();
    twice.Logout();
  }

  /** `setUser(null)` leaves a store exactly as `logout()` does. */
  method SetUserNullIsLogout(a: AuthStore, b: AuthStore)
    requires a != b && a.user == b.user
    modifies a, b
    ensures a.user == b.user == None
  {
    a.SetUser(None);
    b.Logout();
  }
}
