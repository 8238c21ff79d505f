# Admin session, route guard and launch banner — a Dafny model

This project models three pieces of a React exam-platform front end:

- **The admin session manager** (`src/lib/auth-context.tsx`).
  - It keeps one `adminSession` record in the browser store and two flags, `isAuthenticated` and `isInitialized`.
  - It asks the router for navigations.
  - On every change of path it re-reads the record and accepts it only while it is younger than 24 hours and flagged as authenticated. Otherwise it purges the record.
  - It sends unauthenticated visitors of `/admin` pages to `/admin/login`, carrying the page they wanted.
  - `login` accepts one demo pair. The email is compared lower-cased and the password exactly. On success it writes a fresh record and resumes the wanted page. `logout` purges everything and returns to the login page.
- **The route guard** (`src/components/protected-route.tsx`). It decides between three outcomes: a spinner while the session is read, a redirect to the login page, or the protected child routes.
- **The launch banner** (`src/components/launch-announcement.tsx`).
  - It is hidden for 12 hours after a dismissal. Two store keys record the dismissal.
  - It shows a days/hours/minutes countdown to the launch date, computed with JavaScript's floor division and truncating `%`.

The session manager is modelled twice:

- as transition functions on an `AuthState` value (`InitializeStep`, `AdminRouteStep`, `LoginStep`, `LogoutStep`), whose contracts state what the source promises;
- as the class `AuthProvider`, whose fields are the store slot, the two flags and the navigation log. Each of its methods is proved to perform exactly the corresponding transition.

The banner is modelled the same way: the functions `MountCheck`, `Dismiss` and `CalculateTimeRemaining`, and the class `Banner`.

Clock readings (`Date.now()`, `new Date()`) are parameters `now`. The browser store is a map or, for the session slot, the datatype `StoredSession`. The router is represented by the log of navigations it is asked for.

The JavaScript built-ins the code relies on are modelled in `JsStrings`: `toLowerCase`, `startsWith`, `Number.prototype.toString` on integers below 10^21 in magnitude, and `parseInt`.

## Model

| member | source | states |
|---|---|---|
| JsStrings.Lower | src/lib/auth-context.tsx:85-89 | `toLowerCase` keeps the length and leaves no upper-case letter |
| JsStrings.LowerPointwise | src/lib/auth-context.tsx:85-89 | each character of the lowered string is the lowered character at the same position |
| JsStrings.LowerOfLowerCase | src/lib/auth-context.tsx:85 | a string with no upper-case letter is its own lower-case form |
| JsStrings.LowerIdempotent | src/lib/auth-context.tsx:85-89 | lowering twice is lowering once |
| JsStrings.StartsWith | src/lib/auth-context.tsx:69 | `String.prototype.startsWith`: the prefix is no longer than the string and equals its first characters |
| JsStrings.StartsWithTransitive | src/lib/auth-context.tsx:69 | a string that starts with `mid`, where `mid` starts with `prefix`, starts with `prefix` |
| JsStrings.NatToDecimal | src/components/launch-announcement.tsx:58 | the decimal text of a natural number is non-empty, all digits, and has no leading zero |
| JsStrings.IntToString | src/components/launch-announcement.tsx:58 | `toString` of an integer below 10^21 in magnitude (every `Date.now()` value): non-empty, a leading `-` exactly for negative numbers, all digits otherwise |
| JsStrings.DigitPrefixLength | src/components/launch-announcement.tsx:17 | the length of the longest run of digits at the start |
| JsStrings.ParseDigits | src/components/launch-announcement.tsx:17 | reading digits gives `NaN` exactly when the text does not start with a digit |
| JsStrings.ParseInt | src/components/launch-announcement.tsx:17 | `parseInt` gives `NaN` exactly when no digit follows the optional sign |
| JsStrings.DigitsValueOfDecimal | src/components/launch-announcement.tsx:58 | the value of the decimal text of `n` is `n` |
| JsStrings.ParseIntToString | src/components/launch-announcement.tsx:17-58 | `parseInt(n.toString()) == n` for every integer of magnitude below 10^21, which covers every `Date.now()` value, so the stored dismissal instant reads back unchanged |
| AuthContext.ResumeTarget | src/lib/auth-context.tsx:99 | the `from` path when it is present and non-empty, otherwise `/admin/dashboard`; never empty |
| AuthContext.DemoEmailIsLowerCase | src/lib/auth-context.tsx:18-21 | the demo email is already lower-case |
| AuthContext.IsValidSession | src/lib/auth-context.tsx:38-42 | the validity test: a parsable timestamp less than 24 hours old and the record's `isAuthenticated` flag |
| AuthContext.SessionWindowIsStrict | src/lib/auth-context.tsx:38-42 | an unflagged or unparsable record is never valid; a flagged one stamped at `t` is valid up to `t + 24h - 1 ms` and not from `t + 24h` on |
| AuthContext.IsAdminRoute | src/lib/auth-context.tsx:69 | the path starts with `/admin` |
| AuthContext.NeedsLoginRedirect | src/lib/auth-context.tsx:67-72 | the guard effect's condition: initialized, not authenticated, on a path starting with `/admin` that is not exactly `/admin/login` |
| AuthContext.CredentialsMatch | src/lib/auth-context.tsx:85-86 | the credential comparison: both emails lower-cased, the password exact |
| AuthContext.Message | src/lib/auth-context.tsx:81-102 | the missing-fields and invalid-credentials errors carry different texts, each identifying its error |
| AuthContext.InvalidCredentialsMessageRevealsPassword | src/lib/auth-context.tsx:102 | the rejection text ends with the accepted password itself |
| AuthContext.UseAuth | src/lib/auth-context.tsx:126-132 | the hook fails with its message exactly outside a provider, and otherwise returns the context |
| AuthContext.InitializeStep | src/lib/auth-context.tsx:32-63 | every branch ends initialized; an accepted record stays and sets the flag; an invalid or corrupt one is purged and clears the flag; no key leaves store and flag alone; the one navigation is to the dashboard, exactly when a valid session is found on the login page; from a consistent state the flag then means "the store holds a record valid now" |
| AuthContext.AdminRouteStep | src/lib/auth-context.tsx:66-75 | leaves store and flags alone; adds one replace-navigation to login carrying the path exactly when initialized, unauthenticated and on an `/admin` path other than login; does nothing before initialization |
| AuthContext.LocationChangeStep | src/lib/auth-context.tsx:32-75 | both effects after a change of path: always initialized; from a consistent state the flag means "the store holds a record valid now", an accepted session is only ever bounced from the login page to the dashboard, and a rejected one on an `/admin` page other than login is sent to login carrying the path |
| AuthContext.LoginStep | src/lib/auth-context.tsx:77-111 | succeeds exactly when both fields are non-empty and the pair matches; reports missing fields before a mismatch; on success stores the lower-cased email, the flag and `now`, keeps `isInitialized`, navigates to the resume target, and leaves a consistent state accepted at `now` |
| AuthContext.LogoutStep | src/lib/auth-context.tsx:113-117 | store emptied, flag cleared, initialization kept, one replace-navigation to login |
| AuthContext.CredentialsMatchIgnoresEmailCase | src/lib/auth-context.tsx:85-86 | the pair matches iff the lowered email is the demo email and the password is the demo password; lowering the email keeps a match |
| AuthContext.SuccessfulLoginStoresDemoEmail | src/lib/auth-context.tsx:85-92 | whatever letter case was typed, the stored email is the demo email |
| AuthContext.LoginResumesFrom | src/lib/auth-context.tsx:99-100 | a successful login reached from a non-empty path navigates back to exactly that path with the flag set |
| AuthContext.RedirectedLoginResumes | src/lib/auth-context.tsx:72-100 | the effect's redirect from a path, then a successful login handed the redirect's `from`, logs exactly two navigations: to login, then back to that path |
| AuthContext.LogoutIdempotent | src/lib/auth-context.tsx:113-117 | a second logout leaves store and flags as the first; it only repeats the navigation |
| AuthContext.LoginSessionLifetime | src/lib/auth-context.tsx:38-43 | a session written at login is accepted by a later initialization exactly while it is younger than 24 hours |
| AuthContext.StaleSessionBouncedOnNavigation | src/lib/auth-context.tsx:32-75 | on a change of path, a record that is not accepted is purged and an `/admin` page other than login is bounced to login carrying the path |
| AuthContext.StepsPreserveConsistency | src/lib/auth-context.tsx:32-117 | every transition keeps the flag backed by a stored authenticated record |
| AuthContext.StaleFlagSurvivesMissingKey | src/lib/auth-context.tsx:35-36 | with the key gone from the store (another tab), initialization keeps a set flag |
| AuthContext.AuthProvider.constructor | src/lib/auth-context.tsx:26-27 | both flags start false over the stored slot, and the state is consistent |
| AuthContext.AuthProvider.InitializeAuth | src/lib/auth-context.tsx:33-60 | the fields after the effect are `InitializeStep` of the fields before |
| AuthContext.AuthProvider.EnforceAdminRoute | src/lib/auth-context.tsx:66-75 | the fields after the effect are `AdminRouteStep` of the fields before |
| AuthContext.AuthProvider.OnLocationChange | src/lib/auth-context.tsx:32-75 | both effects in declaration order, as `LocationChangeStep` |
| AuthContext.AuthProvider.Login | src/lib/auth-context.tsx:77-111 | on success the fields become `LoginStep`'s new state and no error is returned; on failure the text of `LoginStep`'s error is returned and store, flag and navigation log are unchanged |
| AuthContext.AuthProvider.SaveSession | src/lib/auth-context.tsx:94-100 | writes the record, sets the flag and appends one replace-navigation, changing nothing else |
| AuthContext.AuthProvider.Logout | src/lib/auth-context.tsx:113-117 | the fields after logout are `LogoutStep` of the fields before |
| ProtectedRoute.Decide | src/components/protected-route.tsx:5-25 | pending iff not initialized; redirect to login carrying the location with replace iff initialized and unauthenticated; child routes iff initialized and authenticated |
| ProtectedRoute.IsProtectedPath | src/App.tsx:57-65 | the six route patterns nested under the guard, compared as declared (exact case), with `:id` and `:category` as one non-empty segment without `/` |
| ProtectedRoute.ParamRouteIsAdminRoute | src/App.tsx:62-64 | a path matching an `/admin/...` parameter route is an `/admin` path other than login |
| ProtectedRoute.ProtectedPathsAreAdminRoutes | src/App.tsx:57-65 | every route pattern nested under the guard, compared as declared (exact case), starts with `/admin` and is not the login page |
| ProtectedRoute.GuardAgreesWithAdminRouteEffect | src/components/protected-route.tsx:19-21 | on a path matching a guarded route pattern as declared (exact case), the guard redirects exactly when the manager's effect navigates, and to the same place with the same `from` |
| ProtectedRoute.RedirectThenLoginResumes | src/components/protected-route.tsx:19-24 | on guarded path `p` the guard redirects to login carrying `p`; after the manager's own redirect, a successful login handed the guard's `from` navigates to exactly `p`, where the guard then renders the child routes |
| ProtectedRoute.LoginWithoutRedirectLandsOnDashboard | src/lib/auth-context.tsx:99-100 | without a `from`, a successful login lands on the dashboard |
| LaunchAnnouncement.HoursSinceAtLeastWindow | src/components/launch-announcement.tsx:17-18 | "at least 12 hours" measured in hours is "at least 12 hours" measured in milliseconds |
| LaunchAnnouncement.MountCheck | src/components/launch-announcement.tsx:11-27 | shown iff no dismissal is recorded or it has expired; a missing key writes nothing; a hidden banner writes nothing; an expired dismissal removes only the flag and keeps the timestamp |
| LaunchAnnouncement.Dismiss | src/components/launch-announcement.tsx:55-59 | both keys set, the flag `'true'`, the timestamp the decimal text of `now` that reads back as `now`, other keys untouched |
| LaunchAnnouncement.Truthy | src/components/launch-announcement.tsx:12-15 | `getItem(key)` is truthy: the key is present and its text is not empty |
| LaunchAnnouncement.WasDismissed | src/components/launch-announcement.tsx:15 | both dismissal keys are truthy |
| LaunchAnnouncement.HoursSince | src/components/launch-announcement.tsx:17 | the hours since the stored instant, as an exact real-number division |
| LaunchAnnouncement.DismissalExpired | src/components/launch-announcement.tsx:15-18 | both keys are truthy and the stored instant parses and is at least 12 hours old; an unparsable instant (`NaN`) never is |
| LaunchAnnouncement.DismissThenMount | src/components/launch-announcement.tsx:15-59 | after a dismissal at `t`, a mount at `now` shows the banner iff `now - t` is at least 12 hours, and then removes only the flag |
| LaunchAnnouncement.ReappearedBannerStays | src/components/launch-announcement.tsx:15-20 | once an expired dismissal has been cleared, later mounts show the banner and write nothing |
| LaunchAnnouncement.JsRemainder | src/components/launch-announcement.tsx:44-45 | JavaScript `%`: the ordinary remainder on non-negative dividends, the negated remainder of the magnitude on negative ones |
| LaunchAnnouncement.FloorDiv | src/components/launch-announcement.tsx:43-45 | `Math.floor(a / d)` is the largest `q` with `q * d <= a` |
| LaunchAnnouncement.CalculateTimeRemaining | src/components/launch-announcement.tsx:37-46 | before launch the days are non-negative, hours in [0, 24) and minutes in [0, 60); after launch every figure is zero or negative |
| LaunchAnnouncement.HourRemainderWithinDay | src/components/launch-announcement.tsx:44-45 | the remainder by an hour is unchanged by first taking the remainder by a day |
| LaunchAnnouncement.CountdownBeforeLaunch | src/components/launch-announcement.tsx:40-46 | before launch: days non-negative, hours in [0, 24), minutes in [0, 60), and the figures are the time remaining rounded down to the minute |
| LaunchAnnouncement.CountdownJustAfterLaunch | src/components/launch-announcement.tsx:40-46 | one millisecond after launch the countdown reads -1 days, -1 hours, -1 minutes |
| LaunchAnnouncement.Render | src/components/launch-announcement.tsx:61 | nothing is rendered exactly when `showBanner` is false; otherwise the countdown is shown |
| LaunchAnnouncement.Banner.constructor | src/components/launch-announcement.tsx:8-34 | the banner starts shown with a zero countdown over the stored keys |
| LaunchAnnouncement.Banner.CheckDismissal | src/components/launch-announcement.tsx:11-27 | flag and store after the mount effect are `MountCheck` of the store before; the countdown is untouched |
| LaunchAnnouncement.Banner.UpdateCountdown | src/components/launch-announcement.tsx:37-47 | the countdown becomes `CalculateTimeRemaining(launch, now)`; nothing else changes |
| LaunchAnnouncement.Banner.HandleDismiss | src/components/launch-announcement.tsx:55-59 | the banner is hidden, so nothing is rendered, and the store becomes `Dismiss` of the store before |

## Left out

- Markup: the JSX and styling of every component. Only the decisions that pick what is rendered are modelled (spinner, redirect, outlet; banner or nothing).
- Timers: the one-minute `setInterval` refresh and its cleanup. `UpdateCountdown` is one run of the refresh.
- The launch instant: `new Date('2025-03-15T00:00:00')` has no offset and is read in the browser's local time zone, so the countdown takes the launch instant as a parameter.
- JsStrings.IntToString: writes every integer in plain decimal. JavaScript switches to exponent notation from 10^21 on (`(1e21).toString()` is `"1e+21"`, which `parseInt` reads as 1), and it cannot hold integers above 2^53 exactly. `ParseIntToString` therefore holds in JavaScript only below 10^21 in magnitude. The one call site converts `Date.now()`, which stays below 8.64e15.
- Floating point: `hoursSinceDismissed` is a real-number division, not an IEEE double. It is compared against 12 exactly.
- JSON and dates: `JSON.parse`, `JSON.stringify`, `toISOString` and `new Date(...)` parsing are abstracted.
  - A stored record either parses to an `AdminSession`, whose timestamp is `None` when `Date` cannot read it, or is `Corrupt`.
  - A record whose `isAuthenticated` field is not a boolean is not modelled.
- JsStrings.Lower: lower-cases ASCII letters only. Unicode case mapping is not modelled.
- JsStrings.ParseInt: handles a sign followed by decimal digits. Leading whitespace and `0x` prefixes are not modelled; the stored text is always written by `toString`.
- React scheduling: effects run atomically on the current state. Render-time snapshots, batching and the order React schedules effects in are not modelled. `OnLocationChange` runs the two effects in declaration order.
- Cross-tab storage: other tabs can change the store unseen. `StaleFlagSurvivesMissingKey` shows what a flag that is never re-read then keeps.
- Route matching case: react-router matches route patterns without regard to letter case, so `/ADMIN/dashboard` is rendered under the guard. `'/ADMIN/dashboard'.startsWith('/admin')` is false, so on such paths only the guard protects the page and the manager's effect does not navigate. `IsProtectedPath` compares the patterns as declared, in exact case, and the model does not capture this.
- Navigation side effects: the router is a log of requested navigations. Route matching, the catch-all redirect and the `/admin` redirect to the dashboard are not modelled.
- The login failure: `LoginStep` returns a `LoginError`, and `AuthProvider.Login` returns its text in place of throwing it. The wrapping of non-`Error` exceptions into a generic message cannot happen for the errors `login` throws itself, so it is not modelled.
- `console.error` logging in the initialization handler.
- The rest of the application: pages, layout, navigation bar, theme, service-worker and notification setup.
