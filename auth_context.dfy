/** The admin session manager of `src/lib/auth-context.tsx`: the persisted
    `adminSession` slot, the two in-memory flags `isAuthenticated` and
    `isInitialized`, and the navigations it asks the router for.

    Each operation is first given as a transition function on an `AuthState`
    value (`InitializeStep`, `AdminRouteStep`, `LoginStep`, `LogoutStep`), whose
    contract states what the source promises; the class `AuthProvider` holds
    the same state in fields and its methods are proved to perform exactly
    those transitions. */
module AuthContext {
  import opened Wrappers
  import opened JsStrings

  /** 24 hours, in milliseconds: a stored session is valid while younger. */
  const SessionWindowMs: int := 24 * 60 * 60 * 1000

  const AdminPrefix: string := "/admin"
  const LoginPath: string := "/admin/login"
  const DashboardPath: string := "/admin/dashboard"

  /** The one accepted credential pair. */
  const DemoEmail: string := "demo@example.com"
  const DemoPassword: string := "demo123"

  const MissingFieldsMessage: string := "Email and password are required"
  /** The guidance attached to a rejected pair; it spells out both the
      accepted email and the accepted password. */
  const InvalidCredentialsMessage: string :=
    "Invalid credentials. Use demo credentials:\nEmail: " + DemoEmail + "\nPassword: " + DemoPassword
  const OutsideProviderMessage: string := "useAuth must be used within an AuthProvider"

  /** The record stored under `adminSession`. The ISO-8601 timestamp is kept
      as the millisecond value it parses to, or `None` when `Date` cannot
      parse it (`NaN`). */
  datatype AdminSession = AdminSession(email: string, isAuthenticated: bool, timestamp: Option<int>)

  /** The `adminSession` slot of the browser store: no key, an empty string
      (falsy, so read as no key), text that `JSON.parse` rejects or that
      parses to `null`, or a record. */
  datatype StoredSession = NoKey | EmptyText | Corrupt | Holds(session: AdminSession)

  /** One call of `navigate(to, { replace, state: { from } })`; `from` is the
      path name of the location carried along. */
  datatype Navigation = Navigation(to: string, replace: bool, from: Option<string>)

  datatype AuthState = AuthState(
    adminSession: StoredSession,
    isAuthenticated: bool,
    isInitialized: bool,
    navigations: seq<Navigation>)

  datatype LoginError = MissingFields | InvalidCredentials

  /** What `useAuth` hands to its callers (the flags; `login` and `logout`
      are the operations below). */
  datatype ContextValue = ContextValue(isAuthenticated: bool, isInitialized: bool)

  // ---------------------------------------------------------------------------
  // Pure decisions
  // ---------------------------------------------------------------------------

  /** The validity test: younger than the window (an unparseable timestamp
      compares false) and flagged as authenticated. */
  predicate IsValidSession(session: AdminSession, now: int) {
    match session.timestamp
    case None => false
    case Some(t) => now - t < SessionWindowMs && session.isAuthenticated
  }

  /** A record flagged as authenticated and stamped at `t` is valid up to
      and including `t + SessionWindowMs - 1` and not from `t + SessionWindowMs`
      on; a record not flagged is never valid. */
  lemma SessionWindowIsStrict(session: AdminSession, now: int)
    ensures !session.isAuthenticated ==> !IsValidSession(session, now)
    ensures session.timestamp.None? ==> !IsValidSession(session, now)
    ensures session.isAuthenticated && session.timestamp.Some? ==>
      && IsValidSession(session, session.timestamp.value + SessionWindowMs - 1)
      && !IsValidSession(session, session.timestamp.value + SessionWindowMs)
      && (IsValidSession(session, now) <==> now < session.timestamp.value + SessionWindowMs)
  {
  }

  /** The slot holds a record that initialization accepts at `now`. */
  predicate Accepts(slot: StoredSession, now: int) {
    slot.Holds? && IsValidSession(slot.session, now)
  }

  /** The in-memory flag is never set without a stored authenticated record
      behind it. */
  predicate Consistent(st: AuthState) {
    st.isAuthenticated ==>
      st.adminSession.Holds? && st.adminSession.session.isAuthenticated
      && st.adminSession.session.timestamp.Some?
  }

  predicate IsAdminRoute(pathname: string) {
    StartsWith(pathname, AdminPrefix)
  }

  /** The condition of the second effect: initialized, not authenticated, on
      an `/admin` path other than the login page. */
  predicate NeedsLoginRedirect(isInitialized: bool, isAuthenticated: bool, pathname: string) {
    isInitialized && !isAuthenticated && IsAdminRoute(pathname) && pathname != LoginPath
  }

  /** Email compared lower-cased on both sides, password compared exactly. */
  predicate CredentialsMatch(email: string, password: string) {
    Lower(email) == Lower(DemoEmail) && password == DemoPassword
  }

  /** `location.state?.from?.pathname || '/admin/dashboard'`. */
  function ResumeTarget(from: Option<string>): (path: string)
    ensures path != ""
    ensures from.Some? && from.value != "" ==> path == from.value
    ensures from.None? || from.value == "" ==> path == DashboardPath
  {
    if from.Some? && from.value != "" then from.value else DashboardPath
  }

  /** The text of the `Error` that `login` throws; the two errors are told
      apart by their text. */
  function Message(e: LoginError): (text: string)
    ensures text == MissingFieldsMessage <==> e == MissingFields
    ensures text == InvalidCredentialsMessage <==> e == InvalidCredentials
  {
    match e
    case MissingFields => MissingFieldsMessage
    case InvalidCredentials => InvalidCredentialsMessage
  }

  /** The rejection text ends with the accepted password itself. */
  lemma InvalidCredentialsMessageRevealsPassword()
    ensures |DemoPassword| < |InvalidCredentialsMessage|
    ensures InvalidCredentialsMessage[|InvalidCredentialsMessage| - |DemoPassword|..] == DemoPassword
  {
  }

  lemma DemoEmailIsLowerCase()
    ensures Lower(DemoEmail) == DemoEmail
  {
    LowerOfLowerCase(DemoEmail);
  }

  /** `useAuth`: outside a provider there is no context and the hook fails. */
  function UseAuth(context: Option<ContextValue>): (r: Result<ContextValue, string>)
    ensures r.Failure? <==> context.None?
    ensures r.Failure? ==> r.error == OutsideProviderMessage
    ensures r.Success? ==> r.value == context.value
  {
    match context
    case None => Failure(OutsideProviderMessage)
    case Some(v) => Success(v)
  }

  // ---------------------------------------------------------------------------
  // Transitions
  // ---------------------------------------------------------------------------

  /** `initializeAuth`, run on mount and again whenever the path name changes. */
  function InitializeStep(st: AuthState, now: int, pathname: string): (r: AuthState)
    // every branch, the exception handler included, ends initialized
    ensures r.isInitialized
    // an accepted record stays in the store and sets the flag
    ensures Accepts(st.adminSession, now) ==>
      r.isAuthenticated && r.adminSession == st.adminSession
    // a record that is not accepted, or text that does not parse, is purged
    ensures (st.adminSession.Holds? || st.adminSession.Corrupt?) && !Accepts(st.adminSession, now) ==>
      r.adminSession == NoKey && !r.isAuthenticated
    // with nothing stored, neither the store nor the flag is touched
    ensures st.adminSession.NoKey? || st.adminSession.EmptyText? ==>
      r.adminSession == st.adminSession && r.isAuthenticated == st.isAuthenticated
    // the only navigation: off the login page with a valid session
    ensures r.navigations == st.navigations +
      (if Accepts(st.adminSession, now) && pathname == LoginPath
       then [Navigation(DashboardPath, true, None)] else [])
    // from a consistent state the flag afterwards is exactly "the store holds
    // a record valid now"
    ensures Consistent(st) ==> Consistent(r) && (r.isAuthenticated <==> Accepts(st.adminSession, now))
  {
    match st.adminSession
    case NoKey => st.(isInitialized := true)
    case EmptyText => st.(isInitialized := true)
    case Corrupt => st.(adminSession := NoKey, isAuthenticated := false, isInitialized := true)
    case Holds(session) =>
      if IsValidSession(session, now) then
        var bounce := if pathname == LoginPath then [Navigation(DashboardPath, true, None)] else [];
        st.(isAuthenticated := true, isInitialized := true, navigations := st.navigations + bounce)
      else
        st.(adminSession := NoKey, isAuthenticated := false, isInitialized := true)
  }

  /** The second effect: an unauthenticated visit to an `/admin` path other
      than the login page is sent to the login page, carrying where it came
      from. */
  function AdminRouteStep(st: AuthState, pathname: string): (r: AuthState)
    ensures r.adminSession == st.adminSession
    ensures r.isAuthenticated == st.isAuthenticated && r.isInitialized == st.isInitialized
    ensures r.navigations == st.navigations +
      (if NeedsLoginRedirect(st.isInitialized, st.isAuthenticated, pathname)
       then [Navigation(LoginPath, true, Some(pathname))] else [])
    ensures !st.isInitialized ==> r == st
  {
    if NeedsLoginRedirect(st.isInitialized, st.isAuthenticated, pathname) then
      st.(navigations := st.navigations + [Navigation(LoginPath, true, Some(pathname))])
    else
      st
  }

  /** Both effects, in the order they are declared, after a change of path. */
  function LocationChangeStep(st: AuthState, now: int, pathname: string): (r: AuthState)
    ensures r.isInitialized
    // from a consistent state: the flag is "the store holds a record valid
    // now", an accepted session is never sent to login, and a rejected one
    // on an `/admin` page other than login is
    ensures Consistent(st) ==> Consistent(r) && (r.isAuthenticated <==> Accepts(st.adminSession, now))
    ensures Consistent(st) ==>
      (r.navigations == st.navigations +
        (if Accepts(st.adminSession, now) then
           (if pathname == LoginPath then [Navigation(DashboardPath, true, None)] else [])
         else if IsAdminRoute(pathname) && pathname != LoginPath then
           [Navigation(LoginPath, true, Some(pathname))]
         else []))
  {
    AdminRouteStep(InitializeStep(st, now, pathname), pathname)
  }

  /** `login(email, password)`, where `from` is the path name the login page
      was reached from, if any. */
  function LoginStep(st: AuthState, email: string, password: string, now: int, from: Option<string>)
    : (r: Result<AuthState, LoginError>)
    // succeeds exactly for non-empty fields that match the demo pair
    ensures r.Success? <==> email != "" && password != "" && CredentialsMatch(email, password)
    // empty fields are reported before the pair is compared
    ensures r.Failure? ==> (r.error == MissingFields <==> email == "" || password == "")
    // the record holds the lower-cased email, the flag and the instant of login
    ensures r.Success? ==>
      && r.value.adminSession == Holds(AdminSession(Lower(email), true, Some(now)))
      && r.value.isAuthenticated
      && r.value.isInitialized == st.isInitialized
      && r.value.navigations == st.navigations + [Navigation(ResumeTarget(from), true, None)]
    // the new session is consistent and valid at the instant of login
    ensures r.Success? ==> Consistent(r.value) && Accepts(r.value.adminSession, now)
  {
    if email == "" || password == "" then
      Failure(MissingFields)
    else if CredentialsMatch(email, password) then
      var session := AdminSession(Lower(email), true, Some(now));
      Success(st.(adminSession := Holds(session), isAuthenticated := true,
                  navigations := st.navigations + [Navigation(ResumeTarget(from), true, None)]))
    else
      Failure(InvalidCredentials)
  }

  /** `logout()`. */
  function LogoutStep(st: AuthState): (r: AuthState)
    ensures r.adminSession == NoKey && !r.isAuthenticated && Consistent(r)
    ensures r.isInitialized == st.isInitialized
    ensures r.navigations == st.navigations + [Navigation(LoginPath, true, None)]
  {
    st.(adminSession := NoKey, isAuthenticated := false,
        navigations := st.navigations + [Navigation(LoginPath, true, None)])
  }

  // ---------------------------------------------------------------------------
  // Properties relating several steps
  // ---------------------------------------------------------------------------

  /** The pair matches exactly when the email lower-cases to the demo email
      and the password is the demo password, letter for letter. */
  lemma CredentialsMatchIgnoresEmailCase(email: string, password: string)
    ensures CredentialsMatch(email, password) <==> Lower(email) == DemoEmail && password == DemoPassword
    ensures CredentialsMatch(email, password) ==> CredentialsMatch(Lower(email), password)
  {
    DemoEmailIsLowerCase();
    LowerIdempotent(email);
  }

  /** Whatever letter case was typed, a successful login stores the demo
      email exactly as written in the credentials. */
  lemma SuccessfulLoginStoresDemoEmail(st: AuthState, email: string, password: string, now: int, from: Option<string>)
    requires LoginStep(st, email, password, now, from).Success?
    ensures LoginStep(st, email, password, now, from).value.adminSession.session.email == DemoEmail
  {
    CredentialsMatchIgnoresEmailCase(email, password);
  }

  /** A successful login reached from page `from` navigates back to exactly
      `from`, with the flag set. */
  lemma LoginResumesFrom(st: AuthState, email: string, password: string, now: int, from: string)
    requires from != ""
    requires email != "" && password != "" && CredentialsMatch(email, password)
    ensures LoginStep(st, email, password, now, Some(from)).Success?
    ensures var after := LoginStep(st, email, password, now, Some(from)).value;
      && after.isAuthenticated && after.isInitialized == st.isInitialized
      && after.navigations == st.navigations + [Navigation(from, true, None)]
  {
    assert ResumeTarget(Some(from)) == from;
  }

  /** The effect's redirect from `pathname`, followed by a successful login
      handed that `from`, logs exactly two navigations: to the login page and
      back to `pathname`. */
  lemma RedirectedLoginResumes(st: AuthState, pathname: string, email: string, password: string, now: int)
    requires pathname != "" && NeedsLoginRedirect(st.isInitialized, st.isAuthenticated, pathname)
    requires email != "" && password != "" && CredentialsMatch(email, password)
    ensures var redirected := AdminRouteStep(st, pathname);
      var r := LoginStep(redirected, email, password, now, redirected.navigations[|redirected.navigations| - 1].from);
      && r.Success? && r.value.isAuthenticated && r.value.isInitialized
      && r.value.navigations == st.navigations + [Navigation(LoginPath, true, Some(pathname)), Navigation(pathname, true, None)]
  {
    var toLogin, back := Navigation(LoginPath, true, Some(pathname)), Navigation(pathname, true, None);
    var redirected := AdminRouteStep(st, pathname);
    assert redirected.navigations == st.navigations + [toLogin];
    assert redirected.navigations[|redirected.navigations| - 1].from == Some(pathname);
    LoginResumesFrom(redirected, email, password, now, pathname);
    AppendTwo(st.navigations, toLogin, back);
  }

  /** Appending two navigations one at a time is appending both at once. */
  lemma AppendTwo(log: seq<Navigation>, first: Navigation, second: Navigation)
    ensures log + [first] + [second] == log + [first, second]
  {
  }

  /** Logging out twice leaves the store and the flags as logging out once;
      only the navigation to the login page is issued again. */
  lemma LogoutIdempotent(st: AuthState)
    ensures var once := LogoutStep(st); var twice := LogoutStep(once);
      twice.adminSession == once.adminSession
      && twice.isAuthenticated == once.isAuthenticated
      && twice.isInitialized == once.isInitialized
      && twice.navigations == once.navigations + [Navigation(LoginPath, true, None)]
  {
  }

  /** A session written by login at `issued` is accepted by a later
      initialization at `now` exactly while it is younger than 24 hours. */
  lemma LoginSessionLifetime(st: AuthState, email: string, password: string, issued: int, from: Option<string>,
                             now: int, pathname: string)
    requires LoginStep(st, email, password, issued, from).Success?
    ensures var after := LoginStep(st, email, password, issued, from).value;
      InitializeStep(after, now, pathname).isAuthenticated <==> now - issued < SessionWindowMs
  {
  }

  /** On a navigation, an expired or corrupt session is purged and an
      `/admin` page other than login is bounced to the login page carrying
      the requested path. */
  lemma StaleSessionBouncedOnNavigation(st: AuthState, now: int, pathname: string)
    requires Consistent(st)
    requires !Accepts(st.adminSession, now)
    requires IsAdminRoute(pathname) && pathname != LoginPath
    ensures var r := LocationChangeStep(st, now, pathname);
      !r.isAuthenticated && !r.adminSession.Holds? && !r.adminSession.Corrupt?
      && r.navigations == st.navigations + [Navigation(LoginPath, true, Some(pathname))]
  {
  }

  /** Every transition keeps the flag backed by a stored record. */
  lemma StepsPreserveConsistency(st: AuthState, now: int, pathname: string, email: string, password: string, from: Option<string>)
    requires Consistent(st)
    ensures Consistent(InitializeStep(st, now, pathname))
    ensures Consistent(AdminRouteStep(st, pathname))
    ensures LoginStep(st, email, password, now, from).Success? ==> Consistent(LoginStep(st, email, password, now, from).value)
    ensures Consistent(LogoutStep(st))
  {
  }

  /** Without the consistency invariant (another tab removed the key, which
      this context does not observe) initialization keeps a stale flag: the
      staleness window that sharing the store across tabs leaves open. */
  lemma StaleFlagSurvivesMissingKey(st: AuthState, now: int, pathname: string)
    requires st.adminSession == NoKey && st.isAuthenticated
    ensures InitializeStep(st, now, pathname).isAuthenticated
  {
  }

  // ---------------------------------------------------------------------------
  // The provider object
  // ---------------------------------------------------------------------------

  /** `AuthProvider`: the `adminSession` slot, the two React state flags and
      the log of navigations it requested. */
  class AuthProvider {
    var adminSession: StoredSession
    var isAuthenticated: bool
    var isInitialized: bool
    var navigations: seq<Navigation>

    function State(): AuthState
      reads this
    {
      AuthState(adminSession, isAuthenticated, isInitialized, navigations)
    }

    /** Mounting over whatever the store already holds; both flags start false. */
    constructor(stored: StoredSession)
      ensures State() == AuthState(stored, false, false, [])
      ensures Consistent(State())
    {
      adminSession := stored;
      isAuthenticated := false;
      isInitialized := false;
      navigations := [];
    }

    method InitializeAuth(now: int, pathname: string)
      modifies this
      ensures State() == InitializeStep(old(State()), now, pathname)
    {
      match adminSession {
        case NoKey =>
        case EmptyText =>
        case Corrupt =>
          adminSession := NoKey;
          isAuthenticated := false;
        case Holds(parsedSession) =>
          var isValid := match parsedSession.timestamp
            case None => false
            case Some(sessionTime) => now - sessionTime < SessionWindowMs;
          if isValid && parsedSession.isAuthenticated {
            isAuthenticated := true;
            if pathname == LoginPath {
              navigations := navigations + [Navigation(DashboardPath, true, None)];
            }
          } else {
            adminSession := NoKey;
            isAuthenticated := false;
          }
      }
      isInitialized := true;
    }

    method EnforceAdminRoute(pathname: string)
      modifies this
      ensures State() == AdminRouteStep(old(State()), pathname)
    {
      if !isInitialized {
        return;
      }
      var isAdminRoute := StartsWith(pathname, AdminPrefix);
      var isLoginPage := pathname == LoginPath;
      if !isAuthenticated && isAdminRoute && !isLoginPage {
        navigations := navigations + [Navigation(LoginPath, true, Some(pathname))];
      }
    }

    method OnLocationChange(now: int, pathname: string)
      modifies this
      ensures State() == LocationChangeStep(old(State()), now, pathname)
    {
      InitializeAuth(now, pathname);
      EnforceAdminRoute(pathname);
    }

    method Login(email: string, password: string, now: int, from: Option<string>)
      returns (error: Option<string>)
      modifies this
      ensures var r := LoginStep(old(State()), email, password, now, from);
        && (r.Success? ==> error == None && State() == r.value)
        && (r.Failure? ==> error == Some(Message(r.error)) && State() == old(State()))
    {
      if email == "" || password == "" {
        return Some(MissingFieldsMessage);
      }
      if Lower(email) == Lower(DemoEmail) && password == DemoPassword {
        SaveSession(AdminSession(Lower(email), true, Some(now)), ResumeTarget(from));
        error := None;
      } else {
        error := Some(InvalidCredentialsMessage);
      }
    }

    /** The success path of `login`: write the record, set the flag, navigate. */
    method SaveSession(session: AdminSession, target: string)
      modifies this
      ensures State() == old(State()).(adminSession := Holds(session), isAuthenticated := true,
                                       navigations := old(navigations) + [Navigation(target, true, None)])
    {
      adminSession := Holds(session);
      isAuthenticated := true;
      navigations := navigations + [Navigation(target, true, None)];
    }

    method Logout()
      modifies this
      ensures State() == LogoutStep(old(State()))
    {
      adminSession := NoKey;
      isAuthenticated := false;
      navigations := navigations + [Navigation(LoginPath, true, None)];
    }
  }
}
