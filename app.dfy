/**
 * The application shell: who is logged in (`user`), which page is showing
 * (`currentPage`) and the browser's saved session ("hm_currentUser"). The
 * session is restored at start-up, written on login and removed on logout;
 * a guard sends a visitor without a user away from the dashboard.
 */
module App {
  import opened Wrappers
  import opened Accounts

  datatype Page = Landing | Login | Dashboard

  /** What the shell renders below the navigation bar. */
  datatype View = LandingView | LoginView | DashboardView(user: User) | NoView

  class Shell {
    var user: Option<User>
    var currentPage: Page
    /** The saved session slot; `None` when nothing is stored. */
    var savedSession: Option<User>

    /** The logged-in user is the saved one: true from the restore on, under every transition. */
    ghost predicate Synced()
      reads this
    {
      user == savedSession
    }

    /** The guard has nothing to do: the dashboard is never showing without a user. */
    ghost predicate Guarded()
      reads this
    {
      currentPage == Dashboard ==> user.Some?
    }

    /** The first render: nobody logged in, the landing page, whatever session was saved. */
    constructor (saved: Option<User>)
      ensures user == None && currentPage == Landing && savedSession == saved
      ensures Guarded()
    {
      user := None;
      currentPage := Landing;
      savedSession := saved;
    }

    /** The mount effect: a saved session logs its user back in and opens the dashboard. */
    method RestoreSession()
      requires user == None
      modifies this
      ensures savedSession == old(savedSession)
      ensures old(savedSession).Some? ==> user == old(savedSession) && currentPage == Dashboard
      ensures old(savedSession).None? ==> user == None && currentPage == old(currentPage)
      ensures Synced() && (old(Guarded()) ==> Guarded())
    {
      if savedSession.Some? {
        user := savedSession;
        currentPage := Dashboard;
      }
    }

    /** `handleLogin`: save the session, set the user and open the dashboard. */
    method HandleLogin(userData: User)
      modifies this
      ensures savedSession == Some(userData) && user == Some(userData) && currentPage == Dashboard
      ensures Synced() && Guarded()
    {
      savedSession := Some(userData);
      user := Some(userData);
      currentPage := Dashboard;
    }

    /** `logout`: remove the saved session, clear the user and go to the landing page. */
    method Logout()
      modifies this
      ensures savedSession == None && user == None && currentPage == Landing
      ensures Synced() && Guarded()
    {
      savedSession := None;
      user := None;
      currentPage := Landing;
    }

    /** A change of page: only the page moves. The navigation bar and the landing page
        only ever ask for the landing or the login page; any page is accepted here. */
    method Navigate(page: Page)
      modifies this
      ensures currentPage == page
      ensures user == old(user) && savedSession == old(savedSession)
      ensures old(Synced()) ==> Synced()
    {
      currentPage := page;
    }

    /** The guard effect: the dashboard without a user becomes the login page. */
    method EnforceGuard()
      modifies this
      ensures old(currentPage) == Dashboard && old(user).None? ==> currentPage == Login
      ensures !(old(currentPage) == Dashboard && old(user).None?) ==> currentPage == old(currentPage)
      ensures user == old(user) && savedSession == old(savedSession)
      ensures Guarded() && View() != NoView
    {
      if currentPage == Dashboard && user.None? {
        currentPage := Login;
      }
    }

    /** The page selection: each page value picks one view, and the dashboard
        is shown only with a user, to whom it is handed. */
    function View(): (v: View)
      reads this
      ensures v == LandingView <==> currentPage == Landing
      ensures v == LoginView <==> currentPage == Login
      ensures v.DashboardView? <==> currentPage == Dashboard && user.Some?
      ensures v.DashboardView? ==> Some(v.user) == user
      ensures v == NoView <==> currentPage == Dashboard && user.None?
    {
      match currentPage
      case Landing => LandingView
      case Login => LoginView
      case Dashboard => if user.Some? then DashboardView(user.value) else NoView
    }
  }
}
