# HealthMate clinic scheduling: a verified model of its client logic

HealthMate is a clinic-scheduling web application. Patients book appointments
with doctors, doctors record visit vitals, and admins manage accounts. This
project models, in Dafny, the four parts of it whose logic is present in the
code:

- **The role dashboard's derived data** (`dashboard.dfy`, module `Dashboard`).
  These are pure functions over the user list and the joined appointment list:
  - the current user;
  - the doctor roster;
  - the patient's appointments and the Cancel offer on each;
  - the doctor's Pending queue, soonest first;
  - the Completed lists, most recent first;
  - the "latest vitals" card;
  - the admin's per-role tables.

  They are built from `filter`, `sort` and `find`. These are modelled once, in
  `sequences.dfy` (module `Sequences`), with an independent description of
  what a filter yields: an order-preserving selection (`Selects`). A lemma
  proves that `Filter` is the only function yielding it.

- **Sign-up into the browser's user list** (`loginpage.dfy`, class
  `LoginPage.LoginForm`). The stored list only grows. A sign-up whose email
  equals a stored one, ignoring case, is refused. Otherwise exactly one user is
  appended and the form returns to login mode. The login branch asks the
  backend and never writes the list.

- **The backend's login handler** (`server.dfy`, function `Server.Login`). It
  answers 400 for a missing or empty field. It answers 200 for the built-in
  administrator's exact credentials and 401 for everything else.

- **The shell's session and page state** (`app.dfy`, class `App.Shell`). This
  covers:
  - restoring the saved session;
  - login, logout and navigation;
  - the guard that turns "dashboard without a user" into the login page;
  - the choice of view.

`scenarios.dfy` drives the login page and the shell together as a browser
session would. It shows that an account created by sign-up lives only in the
browser. The backend knows only its administrator, so logging in with that
account right after signing up is refused.

Supporting modules:

- `text.dfy`: JavaScript's string comparison, `Less`. It is proved a strict
  total order, so `AtMost` is a total order.
- `text.dfy` also holds ASCII lower-casing and the decimal rendering used in
  `"u" + Date.now()`. That rendering is proved injective through a round trip.
- `accounts.dfy`: the shared records.
- `wrappers.dfy`: `Option`.

What the code does, and so the model:

- Sign-up stores users in browser storage with the password as typed. There
  is no server-side registration and no password hashing.
- The backend's login accepts one hard-wired account and consults no user
  store.
- Orderings compare the `datetime` strings as the code does. Because the sort
  comparators never answer 0, the model promises non-strict order only. The
  order among equal datetimes is left open.

## Model

| member | source | states |
|---|---|---|
| `Dashboard.CurrentUser` | src/pages/Dashboard.jsx:19-22 | with no user the result is none; otherwise it has the user's id and is the first entry of the list with that id when one exists, else the passed-in user itself |
| `Dashboard.Doctors` | src/pages/Dashboard.jsx:176 | the roster is exactly the users whose role is "doctor", each as often as in the list, in their original order |
| `Sequences.Filter` | src/pages/Dashboard.jsx:180 | `filter` yields an order-preserving subsequence holding exactly the elements that pass the test, with their multiplicities |
| `Sequences.SelectsIsFilter` | src/pages/Dashboard.jsx:180 | any order-preserving selection of the passing elements equals `Filter`'s result, so the description above determines the result |
| `Sequences.FilterConcat` | src/pages/Dashboard.jsx:180 | filtering a concatenation filters each part and concatenates: relative order is kept |
| `Sequences.FindFirst` | src/pages/Dashboard.jsx:20 | `find` returns the position of an element passing the test with no passing element before it, or nothing when none passes |
| `Sequences.PicksNothing` | src/pages/Dashboard.jsx:258 | a selection is empty exactly when no element of the source passes the test |
| `Dashboard.MyPatientAppts` | src/pages/Dashboard.jsx:178-181 | empty without a current id; otherwise exactly the appointments whose patient id is the current id, in list order |
| `Dashboard.Compare` | src/pages/Dashboard.jsx:187 | the sort comparators answer only 1 or -1, never 0 |
| `Dashboard.CompareConsistent` | src/pages/Dashboard.jsx:194 | a negative answer lets the first appointment stand first and a positive one lets the second stand first, in the direction's datetime order |
| `Dashboard.Insert` | src/pages/Dashboard.jsx:187 | inserting into a datetime-ordered list keeps it ordered and adds exactly the one element |
| `Dashboard.Sort` | src/pages/Dashboard.jsx:187 | sorting with a direction's comparator yields a permutation of the input in non-strict datetime order of that direction |
| `Dashboard.MyDoctorPending` | src/pages/Dashboard.jsx:183-188 | empty without a current id; otherwise a permutation of exactly the current doctor's Pending appointments, in non-decreasing datetime order |
| `Dashboard.MyDoctorCompleted` | src/pages/Dashboard.jsx:190-195 | empty without a current id; otherwise a permutation of exactly the current doctor's Completed appointments, in non-increasing datetime order |
| `Dashboard.MyPatientCompleted` | src/pages/Dashboard.jsx:197-202 | empty without a current id; otherwise a permutation of exactly the current patient's Completed appointments, in non-increasing datetime order |
| `Dashboard.HeadIsLatest` | src/pages/Dashboard.jsx:370 | the head of a list in non-increasing datetime order is at least as late as every element |
| `Dashboard.LatestVitals` | src/pages/Dashboard.jsx:370 | the vitals card shows only an appointment that belongs to the current patient, is Completed and has a record; none without a current id |
| `Dashboard.LatestVitalsIsLatest` | src/pages/Dashboard.jsx:370-378 | a shown card is a Completed appointment of the current patient that has a record and is at least as late as all the patient's Completed appointments |
| `Dashboard.LatestVitalsHiddenOnlyWithoutRecord` | src/pages/Dashboard.jsx:370-378 | if the card is hidden although the patient has Completed appointments, one of the latest of them has no record |
| `Dashboard.Table` | src/pages/Dashboard.jsx:237-264 | a role table lists exactly the users with that role in list order, and its "No …s yet" row shows exactly when no user has the role |
| `Dashboard.AdminTables` | src/pages/Dashboard.jsx:223-264 | the admin view has a doctors table then a patients table, each with the rows and empty-row behaviour above |
| `Dashboard.StatusBadge` | src/pages/Dashboard.jsx:432-434 | a badge shows for Pending, Completed and Cancelled only, and its text is the status itself |
| `Dashboard.PatientRows` | src/pages/Dashboard.jsx:427-442 | the "My Appointments" rows are the patient's appointments, one row each, in the same order |
| `Dashboard.CancelOfferedExactlyForOwnPending` | src/pages/Dashboard.jsx:437-439 | Cancel is offered on an appointment exactly when it is in the list, belongs to the current patient and is Pending |
| `Text.Less` | src/pages/Dashboard.jsx:187 | JavaScript's `>` on strings: a proper prefix stands before the longer string, and no string stands before its own prefix |
| `Text.LessAtFirstDifference` | src/pages/Dashboard.jsx:187 | past a common prefix, the first differing character decides the order |
| `Text.AtMostTotal` | src/pages/Dashboard.jsx:187 | any two datetime strings are comparable |
| `Text.AtMostTransitive` | src/pages/Dashboard.jsx:187 | string order on datetimes is transitive |
| `Text.AtMostAntisymmetric` | src/pages/Dashboard.jsx:187 | two datetimes each at most the other are equal |
| `Text.Lower` | src/pages/LoginPage.jsx:20 | lower-casing keeps the length and maps each character through ASCII lower-casing |
| `Text.SameIgnoringCaseCharwise` | src/pages/LoginPage.jsx:20 | emails equal ignoring case have the same length and agree position by position up to letter case |
| `Text.DecimalRoundTrip` | src/pages/LoginPage.jsx:29 | reading back the decimal rendering of a clock value gives that value |
| `LoginPage.EmailTaken` | src/pages/LoginPage.jsx:19-21 | the duplicate test holds exactly when some stored user's email equals the typed one ignoring case |
| `LoginPage.NewUserId` | src/pages/LoginPage.jsx:29 | the id is "u" followed by decimal digits whose value is the clock reading |
| `LoginPage.NewUser` | src/pages/LoginPage.jsx:28-36 | the stored record carries that id, the form's name, email as typed, password and role, an empty history and no vitals |
| `LoginPage.RepeatSignUpRefused` | src/pages/LoginPage.jsx:19-25 | once a user is stored, a sign-up with the same email in any letter case finds it taken |
| `LoginPage.NewUserIdsDiffer` | src/pages/LoginPage.jsx:29 | sign-ups at different clock readings get different ids |
| `LoginPage.AppendKeepsEmailsDistinct` | src/pages/LoginPage.jsx:19-39 | appending a user whose email is not taken keeps stored emails pairwise distinct ignoring case |
| `LoginPage.LoginOutcome` | src/pages/LoginPage.jsx:46-66 | the login branch logs in exactly with the administrator's credentials and a reachable backend, handing on the backend's user; otherwise it reports a refusal or an unreachable backend |
| `LoginPage.LoginForm.constructor` | src/pages/LoginPage.jsx:4-10 | the form starts in login mode, with empty fields and role "patient", over the stored list |
| `LoginPage.LoginForm.ToggleMode` | src/pages/LoginPage.jsx:147 | switching between sign-up and login mode changes only the mode |
| `LoginPage.LoginForm.EnterEmail` | src/pages/LoginPage.jsx:102-104 | typing an email changes only the form's email |
| `LoginPage.LoginForm.EnterPassword` | src/pages/LoginPage.jsx:115-117 | typing a password changes only the form's password |
| `LoginPage.LoginForm.EnterName` | src/pages/LoginPage.jsx:88-90 | typing a name changes only the form's name |
| `LoginPage.LoginForm.ChooseRole` | src/pages/LoginPage.jsx:124-134 | choosing a role, from any state, sets it to the option's value, one of patient, doctor and admin, and keeps the rest of the form |
| `LoginPage.LoginForm.HandleSubmit` | src/pages/LoginPage.jsx:12-67 | a sign-up with a taken email is refused with the list unchanged; otherwise exactly the new user is appended and the form returns to login mode; distinct emails stay distinct; the login branch leaves the list and mode unchanged |
| `Server.Login` | backend/server.js:31-67 | 400 exactly when email or password is missing or empty; 200 exactly for the administrator's email and password; 401 otherwise; `ok` exactly on 200; a user exactly on success |
| `Server.OthersUnauthorized` | backend/server.js:56-59 | every other pair of non-empty values is refused with 401 and no user |
| `Server.CapitalisedAdminEmailRefused` | backend/server.js:43 | matching is case-sensitive: "Admin@test.com", the administrator's email up to letter case, is refused with 401 even with the right password |
| `App.Shell.constructor` | src/App.jsx:9-10 | the shell starts with no user on the landing page |
| `App.Shell.RestoreSession` | src/App.jsx:12-19 | a saved session becomes the user and opens the dashboard; without one the state is unchanged; afterwards user and saved session agree |
| `App.Shell.HandleLogin` | src/App.jsx:21-26 | login saves the session, sets the user and opens the dashboard |
| `App.Shell.Logout` | src/App.jsx:28-32 | logout removes the saved session, clears the user and opens the landing page |
| `App.Shell.Navigate` | src/App.jsx:43 | navigation changes the page only, never the user or the saved session |
| `App.Shell.EnforceGuard` | src/App.jsx:35-39 | the dashboard without a user becomes the login page; nothing else changes; afterwards a view is always rendered |
| `App.Shell.View` | src/App.jsx:45-51 | each page value selects exactly one view, and the dashboard is rendered, for the current user, only when the page is the dashboard and a user is set |
| `Scenarios.SignUpThenLogIn` | src/pages/LoginPage.jsx:12-67 | after a successful sign-up with a non-administrator email, logging in with it is refused and the stored list keeps the new user |
| `Scenarios.AdminSession` | src/App.jsx:21-32 | logging in as the administrator shows the dashboard for the backend's user, and logging out shows the landing page with no saved session |
| `Scenarios.ReturningVisitor` | src/App.jsx:12-19 | a saved session brings its user straight to the dashboard |
| `Scenarios.DashboardWithoutUser` | src/App.jsx:35-39 | navigating to the dashboard without a user ends on the login page |

## Left out

- The appointment lifecycle (book, cancel, complete), the pairing of appointments and medical records, and the cascade delete of a user's appointments are left out. The code only calls them over HTTP, and their server side is not part of this model.
- All HTTP and `fetch` plumbing is left out, as I/O. So are `alert`/`confirm` and the loading flag. The backend's reachability is a boolean parameter of `LoginPage.LoginForm.HandleSubmit`.
- The dashboard's data fetch, the React effect scheduling and the `onUserUpdate` synchronisation are left out, as framework lifecycle. The shell's effects are methods that callers invoke: `RestoreSession` once at mount, which is why it requires that no user is set yet, and `EnforceGuard` after a change.
- JSX rendering is left out, as presentation. This includes the doctor's specialty sub-line in the admin table, the table headings and `toLocaleString`/`toLocaleDateString` date formatting. Status badges are kept as a field of each patient row.
- The JSON (de)serialisation of browser storage is left out. The user list is a sequence field, where a missing entry reads as empty. The saved session is an optional field.
- `Date.now()` is passed in as the parameter `now`.
- The database dump script, the MySQL pool and the health route are left out, as external I/O. The navigation bar and the landing page are presentation; their page changes are `App.Shell.Navigate`.
- `Server.Login`: its `catch` branch (500) is not modelled. Once the body is parsed into an object, nothing in the handler can throw.
- `Text.Lower`: lower-casing covers ASCII letters only. JavaScript's Unicode case mapping is not modelled.
- `Text.Less`: characters compare as code points. JavaScript compares UTF-16 code units, which differ only beyond the Basic Multilingual Plane.
- `Dashboard.Sort`: the sort is an insertion sort driven by the source's comparators. JavaScript's own algorithm may order equal datetimes differently. For that reason every contract promises only non-strict order and a permutation.
- Ids are integers or strings. Fractional JSON numbers are not modelled.
- `Server.Field` has no variant for JSON objects, arrays or fractional numbers. All of them are truthy and none equals the administrator's strings, so the handler answers 401 for them, as it does for `Number(1)`.
- `App.Shell.Navigate` accepts any page. The navigation bar and the landing page only ever ask for the landing or the login page.
