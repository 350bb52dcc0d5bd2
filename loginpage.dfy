/**
 * The login page: a form that either signs a user up into the browser's
 * stored user list ("hm_users") or asks the backend to log in. Sign-up
 * refuses an email already stored (ignoring case) and otherwise appends
 * exactly one user; logging in never writes the stored list.
 */
module LoginPage {
  import opened Wrappers
  import opened Text
  import opened Sequences
  import opened Accounts
  import Server

  /** An entry of the stored user list, as sign-up writes it. */
  datatype StoredUser = StoredUser(
    id: string,
    name: string,
    email: string,
    pass: string,
    role: string,
    history: string,
    vitals: map<string, string>)

  /** The form's state `{email, pass, name, role}`. */
  datatype FormData = FormData(email: string, pass: string, name: string, role: string)

  /** The options of the "Register as" select. */
  datatype RoleOption = PatientOption | DoctorOption | AdminOption

  function OptionValue(o: RoleOption): string
  {
    match o
    case PatientOption => PatientRole
    case DoctorOption => DoctorRole
    case AdminOption => AdminRole
  }

  predicate SelectableRole(role: string)
  {
    role == PatientRole || role == DoctorRole || role == AdminRole
  }

  /** No two stored users have emails equal ignoring case. */
  predicate EmailsDistinct(users: seq<StoredUser>)
  {
    forall i, j :: 0 <= i < j < |users| ==> !SameIgnoringCase(users[i].email, users[j].email)
  }

  /** The duplicate test of sign-up: `users.find((u) => u.email.toLowerCase() === email.toLowerCase())`
      finds something. */
  function EmailTaken(users: seq<StoredUser>, email: string): (taken: bool)
    ensures taken <==> exists i :: 0 <= i < |users| && SameIgnoringCase(users[i].email, email)
  {
    FindFirst(users, (u: StoredUser) => SameIgnoringCase(u.email, email)).Some?
  }

  /** The id of a new user: `"u" + Date.now()`, the clock reading passed in as `now`. */
  function NewUserId(now: nat): (id: string)
    ensures |id| > 1 && id[0] == 'u' && AllDigits(id[1..])
    ensures DigitsValue(id[1..]) == now
  {
    DecimalRoundTrip(now);
    assert ("u" + Decimal(now))[1..] == Decimal(now);
    "u" + Decimal(now)
  }

  /** Sign-ups at different clock readings get different ids. */
  lemma NewUserIdsDiffer(m: nat, n: nat)
    requires m != n
    ensures NewUserId(m) != NewUserId(n)
  {
  }

  /** The user a successful sign-up stores: the form's name, email as typed, password
      and role, with an empty history and no vitals. */
  function NewUser(form: FormData, now: nat): (u: StoredUser)
    ensures u.id == NewUserId(now)
    ensures u.name == form.name && u.email == form.email && u.pass == form.pass && u.role == form.role
    ensures u.history == "" && u.vitals == map[]
  {
    StoredUser(NewUserId(now), form.name, form.email, form.pass, form.role, "", map[])
  }

  /** Once a user is stored, signing up again with the same email in any letter case is refused. */
  lemma RepeatSignUpRefused(users: seq<StoredUser>, form: FormData, now: nat, email: string)
    requires SameIgnoringCase(email, form.email)
    ensures EmailTaken(users + [NewUser(form, now)], email)
  {
    assert (users + [NewUser(form, now)])[|users|].email == form.email;
  }

  /** Appending a user whose email is not taken keeps the emails distinct. */
  lemma AppendKeepsEmailsDistinct(users: seq<StoredUser>, u: StoredUser)
    requires EmailsDistinct(users) && !EmailTaken(users, u.email)
    ensures EmailsDistinct(users + [u])
  {
    var all := users + [u];
    forall i, j | 0 <= i < j < |all|
      ensures !SameIgnoringCase(all[i].email, all[j].email)
    {
      if j == |users| {
        assert all[i] == users[i] && all[j] == u;
      } else {
        assert all[i] == users[i] && all[j] == users[j];
      }
    }
  }

  /** What submitting the form leads to. */
  datatype Outcome =
    | SignedUp                 // "Account created successfully!"
    | EmailInUse               // "Error: This Username/Email is already taken!"
    | LoggedIn(user: User)     // handed to the application's login callback
    | Refused(message: string) // the backend's message, or "Invalid Username or Password!"
    | BackendUnreachable       // the request itself failed

  /** The login branch: the backend's answer to the form's email and password. */
  function LoginOutcome(form: FormData, backendReachable: bool): (r: Outcome)
    ensures r.LoggedIn? <==> backendReachable && form.email == Server.AdminEmail && form.pass == Server.AdminPassword
    ensures r.LoggedIn? ==> r.user == Server.AdminUser()
    ensures r.Refused? <==> backendReachable && !r.LoggedIn?
    ensures !backendReachable <==> r == BackendUnreachable
  {
    if !backendReachable then BackendUnreachable
    else
      var reply := Server.Login(Server.Request(Server.Text(form.email), Server.Text(form.pass)));
      if reply.ok then LoggedIn(reply.user.value)
      else Refused(if reply.message != "" then reply.message else "Invalid Username or Password!")
  }

  class LoginForm {
    var isSignup: bool
    var formData: FormData
    /** The browser's "hm_users" entry; a missing entry reads as the empty list. */
    var storedUsers: seq<StoredUser>

    /** The role is always one of the select's options. */
    ghost predicate Valid()
      reads this
    {
      SelectableRole(formData.role)
    }

    constructor (stored: seq<StoredUser>)
      ensures Valid()
      ensures !isSignup && formData == FormData("", "", "", PatientRole) && storedUsers == stored
    {
      isSignup := false;
      formData := FormData("", "", "", PatientRole);
      storedUsers := stored;
    }

    /** "Register Now" / "Login here". */
    method ToggleMode()
      modifies this
      ensures isSignup == !old(isSignup)
      ensures formData == old(formData) && storedUsers == old(storedUsers)
    {
      isSignup := !isSignup;
    }

    method EnterEmail(value: string)
      modifies this
      ensures formData == old(formData).(email := value)
      ensures isSignup == old(isSignup) && storedUsers == old(storedUsers)
    {
      formData := formData.(email := value);
    }

    method EnterPassword(value: string)
      modifies this
      ensures formData == old(formData).(pass := value)
      ensures isSignup == old(isSignup) && storedUsers == old(storedUsers)
    {
      formData := formData.(pass := value);
    }

    method EnterName(value: string)
      modifies this
      ensures formData == old(formData).(name := value)
      ensures isSignup == old(isSignup) && storedUsers == old(storedUsers)
    {
      formData := formData.(name := value);
    }

    method ChooseRole(o: RoleOption)
      modifies this
      ensures Valid()
      ensures formData == old(formData).(role := OptionValue(o))
      ensures isSignup == old(isSignup) && storedUsers == old(storedUsers)
    {
      formData := formData.(role := OptionValue(o));
    }

    /** `handleSubmit`. In sign-up mode: refuse a taken email, otherwise append the new
        user and switch to login mode. In login mode: ask the backend, leaving the
        stored list alone. `now` is the clock reading; `backendReachable` says whether
        the request got an answer. */
    method HandleSubmit(now: nat, backendReachable: bool) returns (outcome: Outcome)
      requires Valid()
      modifies this
      ensures Valid() && formData == old(formData)
      ensures old(isSignup) && EmailTaken(old(storedUsers), formData.email) ==>
                outcome == EmailInUse && storedUsers == old(storedUsers) && isSignup
      ensures old(isSignup) && !EmailTaken(old(storedUsers), formData.email) ==>
                outcome == SignedUp && storedUsers == old(storedUsers) + [NewUser(formData, now)] && !isSignup
      ensures old(isSignup) && EmailsDistinct(old(storedUsers)) ==> EmailsDistinct(storedUsers)
      ensures !old(isSignup) ==>
                outcome == LoginOutcome(formData, backendReachable) && storedUsers == old(storedUsers) && !isSignup
    {
      var users := storedUsers;
      if isSignup {
        if EmailTaken(users, formData.email) {
          outcome := EmailInUse;
          return;
        }
        var newUser := NewUser(formData, now);
        if EmailsDistinct(users) {
          AppendKeepsEmailsDistinct(users, newUser);
        }
        users := users + [newUser];
        storedUsers := users;
        outcome := SignedUp;
        isSignup := false;
        return;
      }
      outcome := LoginOutcome(formData, backendReachable);
    }
  }
}
