/**
 * The login page (`app/auth/login/page.tsx`): the form state, the
 * decision that ends a login attempt, the sign-up profile record and the
 * check that sends an already logged-in user on.
 *
 * The authentication provider's answers are inputs.
 */
module LoginPage {
  import opened DatabaseTypes
  import opened Backend
  import opened Auth

  /** The user returned by the authentication provider. */
  datatype AuthUser = AuthUser(id: string, email: string)

  /** The answer of `signInWithPassword`. */
  datatype SignInResult = SignInFailed(message: string) | SignedIn(user: Option<AuthUser>)

  /** The answer of the profile query: an error, or the rows (null `data` counts as no rows). */
  datatype ProfileFetch = FetchFailed | Fetched(roles: seq<UserRole>)

  /** How a login attempt ends. */
  datatype LoginOutcome =
    | LoginError(message: string)
    | NoUserReturned
    | LoggedIn(user: User, target: string)

  const ProfileFetchError: string := "Error fetching profile. Please try again."
  const ProfileNotFound: string := "Profile not found. Please contact administrator."

  /**
   * `handleLogin`'s sequence of checks: the sign-in error, then the profile
   * query error, then an empty profile list each end the attempt with a
   * message; otherwise the first profile's role decides the dashboard.
   */
  function ResolveLogin(signIn: SignInResult, fetch: ProfileFetch): (o: LoginOutcome)
    ensures signIn.SignInFailed? ==> o == LoginError(signIn.message)
    ensures signIn == SignedIn(None) ==> o == NoUserReturned
    ensures signIn.SignedIn? && signIn.user.Some? && fetch.FetchFailed? ==> o == LoginError(ProfileFetchError)
    ensures signIn.SignedIn? && signIn.user.Some? && fetch.Fetched? && fetch.roles == [] ==> o == LoginError(ProfileNotFound)
    ensures o.LoggedIn? <==> signIn.SignedIn? && signIn.user.Some? && fetch.Fetched? && fetch.roles != []
    ensures o.LoggedIn? ==>
      && o.user == User(signIn.user.value.id, signIn.user.value.email, fetch.roles[0], None)
      && o.target == DashboardPath(fetch.roles[0])
  {
    match signIn
    case SignInFailed(msg) => LoginError(msg)
    case SignedIn(None) => NoUserReturned
    case SignedIn(Some(u)) =>
      match fetch
      case FetchFailed => LoginError(ProfileFetchError)
      case Fetched(roles) =>
        if roles == [] then LoginError(ProfileNotFound)
        else LoggedIn(User(u.id, u.email, roles[0], None), DashboardPath(roles[0]))
  }

  /** A login's role always comes from a profile row: with no rows the attempt fails instead of defaulting a role. */
  lemma LoginNeverDefaultsRole(signIn: SignInResult, fetch: ProfileFetch, auth: AuthUser)
    requires signIn == SignedIn(Some(auth))
    ensures ResolveLogin(signIn, fetch).LoggedIn? ==>
      fetch.Fetched? && |fetch.roles| > 0 && ResolveLogin(signIn, fetch).user.role == fetch.roles[0]
    ensures ResolveLogin(signIn, Fetched([])).LoginError?
  {
  }

  /**
   * `checkUser`: a user already logged in is sent to the first profile's
   * dashboard; with no profile rows the page stays.
   */
  function CheckUserRedirect(user: Option<AuthUser>, profiles: Option<seq<UserRole>>): (target: Option<string>)
    ensures target.Some? <==> user.Some? && profiles.Some? && |profiles.value| > 0
    ensures target.Some? ==> target.value == DashboardPath(profiles.value[0])
  {
    if user.Some? && profiles.Some? && |profiles.value| > 0 then Some(DashboardPath(profiles.value[0]))
    else None
  }

  /** The answer of `signUp`. */
  datatype SignUpResult = SignUpFailed(message: string) | SignedUp(user: Option<AuthUser>, hasSession: bool)

  /** How a sign-up attempt ends; `notice` is the description of the "Account created!" message. */
  datatype SignUpOutcome = SignUpError(message: string) | NoAccount | AccountCreated(notice: string)

  /** The profile row a sign-up upserts, keyed by the new user's id. */
  function SignUpProfile(user: AuthUser, role: UserRole, fullName: string): (p: Profile)
    ensures p.id == user.id && p.email == user.email && p.role == role && p.fullName == Some(fullName)
  {
    Profile(user.id, user.email, role, Some(fullName))
  }

  class LoginForm {
    var email: string
    var password: string
    var fullName: string
    var role: UserRole

    /** The form starts empty, with the role selector on "student". */
    constructor ()
      ensures email == "" && password == "" && fullName == "" && role == Student
    {
      email := "";
      password := "";
      fullName := "";
      role := Student;
    }

    /** `handleLogin`: only a successful attempt stores a user; it stores exactly the resolved user. */
    method HandleLogin(auth: AuthStore, signIn: SignInResult, fetch: ProfileFetch) returns (o: LoginOutcome)
      modifies auth
      ensures o == ResolveLogin(signIn, fetch)
      ensures o.LoggedIn? ==> auth.user == Some(o.user)
      ensures !o.LoggedIn? ==> auth.user == old(auth.user)
    {
      o := ResolveLogin(signIn, fetch);
      if o.LoggedIn? {
        auth.SetUser(Some(o.user));
      }
    }

    /**
     * `handleSignUp`: when the provider returns a user, the profile row is
     * upserted (a failure there is only logged) and the three text fields
     * are cleared; otherwise neither the store nor the form changes.
     */
    method HandleSignUp(db: Database, signUp: SignUpResult, profileWriteFails: bool) returns (o: SignUpOutcome)
      modifies this, db
      ensures signUp.SignUpFailed? ==> o == SignUpError(signUp.message)
      ensures signUp.SignedUp? && signUp.user.None? ==> o == NoAccount
      ensures o.AccountCreated? <==> signUp.SignedUp? && signUp.user.Some?
      ensures o.AccountCreated? ==>
        && email == "" && password == "" && fullName == ""
        && o.notice == (if signUp.hasSession then "You can now login with your credentials."
                        else "Please check your email to verify your account, then login.")
      ensures o.AccountCreated? && !profileWriteFails ==>
        db.profiles == old(db.profiles)[signUp.user.value.id := SignUpProfile(signUp.user.value, old(role), old(fullName))]
      ensures !(o.AccountCreated? && !profileWriteFails) ==> db.profiles == old(db.profiles)
      ensures !o.AccountCreated? ==> email == old(email) && password == old(password) && fullName == old(fullName)
      ensures role == old(role)
      ensures db.students == old(db.students) && db.teachers == old(db.teachers) && db.nocs == old(db.nocs)
      ensures db.internships == old(db.internships) && db.evaluations == old(db.evaluations)
    {
      match signUp
      case SignUpFailed(msg) =>
        o := SignUpError(msg);
      case SignedUp(None, _) =>
        o := NoAccount;
      case SignedUp(Some(u), hasSession) =>
        if !profileWriteFails {
          db.UpsertProfile(SignUpProfile(u, role, fullName));
        }
        o := AccountCreated(
          if hasSession then "You can now login with your credentials."
          else "Please check your email to verify your account, then login.");
        email := "";
        password := "";
        fullName := "";
    }
  }

  /**
   * A sign-up whose profile was stored makes the next login of that user
   * succeed with the role chosen at sign-up.
   */
  lemma {:induction false} SignUpThenLogin(profiles: map<string, Profile>, user: AuthUser, role: UserRole, fullName: string)
    ensures var after := profiles[user.id := SignUpProfile(user, role, fullName)];
      ResolveLogin(SignedIn(Some(user)), Fetched(ProfileRoles(after, user.id))) ==
        LoggedIn(User(user.id, user.email, role, None), DashboardPath(role))
  {
    var after := profiles[user.id := SignUpProfile(user, role, fullName)];
    assert ProfileRoles(after, user.id) == [role];
  }
}
