/**
 * Clients of the login page and the shell, as a browser session drives them:
 * what a user sees after signing up and after logging in with the backend's
 * one account.
 */
module Scenarios {
  import opened Wrappers
  import opened Accounts
  import opened LoginPage
  import opened App
  import Server

  /** Signing up stores the account in the browser only; logging in with it right
      afterwards asks the backend, which knows only its administrator, and is refused.
      The stored list keeps the new account either way. */
  method SignUpThenLogIn(stored: seq<StoredUser>, name: string, email: string, pass: string, now: nat)
    returns (signUp: Outcome, login: Outcome, after: seq<StoredUser>)
    requires !EmailTaken(stored, email)
    requires email != Server.AdminEmail
    ensures signUp == SignedUp
    ensures login.Refused?
    ensures after == stored + [StoredUser(NewUserId(now), name, email, pass, PatientRole, "", map[])]
  {
    var page := new LoginForm(stored);
    page.ToggleMode();
    page.EnterName(name);
    page.EnterEmail(email);
    page.EnterPassword(pass);
    signUp := page.HandleSubmit(now, true);
    login := page.HandleSubmit(now, true);
    after := page.storedUsers;
  }

  /** A visitor without a saved session opens the login page, logs in as the backend's
      administrator and is shown the dashboard for that user; after logging out the
      landing page shows and no session is saved. */
  method AdminSession() returns (inside: View, outside: View, saved: Option<User>)
    ensures inside == DashboardView(Server.AdminUser())
    ensures outside == LandingView && saved == None
  {
    var shell := new Shell(None);
    shell.RestoreSession();
    shell.Navigate(Login);
    var page := new LoginForm([]);
    page.EnterEmail(Server.AdminEmail);
    page.EnterPassword(Server.AdminPassword);
    var outcome := page.HandleSubmit(0, true);
    if outcome.LoggedIn? {
      shell.HandleLogin(outcome.user);
    }
    shell.EnforceGuard();
    inside := shell.View();
    shell.Logout();
    outside := shell.View();
    saved := shell.savedSession;
  }

  /** A saved session brings its user straight back to the dashboard at start-up. */
  method ReturningVisitor(u: User) returns (v: View)
    ensures v == DashboardView(u)
  {
    var shell := new Shell(Some(u));
    shell.RestoreSession();
    shell.EnforceGuard();
    v := shell.View();
  }

  /** Reaching the dashboard without a user, which no control of the interface does,
      ends on the login page: the guard is a safety net. */
  method DashboardWithoutUser() returns (v: View)
    ensures v == LoginView
  {
    var shell := new Shell(None);
    shell.RestoreSession();
    shell.Navigate(Dashboard);
    shell.EnforceGuard();
    v := shell.View();
  }
}
