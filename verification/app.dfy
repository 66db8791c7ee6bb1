/**
 * The top-level controller: the logged-in user, the two authentication
 * modals, the error shown in them, and which page the main area renders.
 */
module App {
  import opened Wrappers
  import opened Types
  import AuthService

  datatype View = Main | Pricing

  datatype AppState = AppState(
    currentUser: Option<User>,
    loginOpen: bool,
    signupOpen: bool,
    authError: Option<string>,
    view: View)

  /** The controller together with the account store it talks to. */
  datatype World = World(app: AppState, store: AuthService.Store)

  /** What the main area shows. */
  datatype Screen = PricingPage | JobSeekerDashboard(user: User) | EmployerDashboard | LandingPage

  /** Mounting: the current user is whatever reading the session returns (which may clear it). */
  function Start(store: AuthService.Store): (w: World)
    ensures w.app.currentUser == AuthService.GetCurrentUser(store).user
    ensures w.store == AuthService.GetCurrentUser(store).store
    ensures !w.app.loginOpen && !w.app.signupOpen && w.app.authError == None && w.app.view == Main
  {
    var read := AuthService.GetCurrentUser(store);
    World(AppState(read.user, false, false, None, Main), read.store)
  }

  /**
   * `renderContent`: the pricing page whenever it is selected; otherwise the
   * dashboard for the user's role, and the landing page for any other role
   * or when nobody is logged in.
   */
  function RenderContent(app: AppState): (r: Screen)
    ensures app.view == Pricing ==> r == PricingPage
    ensures app.view == Main && app.currentUser.Some? && app.currentUser.value.role == RoleName(Seeker) ==>
              r == JobSeekerDashboard(app.currentUser.value)
    ensures app.view == Main && app.currentUser.Some? && app.currentUser.value.role == RoleName(Employer) ==>
              r == EmployerDashboard
    ensures r == LandingPage <==>
              && app.view.Main?
              && (app.currentUser.None?
                  || (app.currentUser.value.role != RoleName(Seeker) && app.currentUser.value.role != RoleName(Employer)))
  {
    if app.view.Pricing? then PricingPage
    else if app.currentUser.None? then LandingPage
    else if app.currentUser.value.role == "seeker" then JobSeekerDashboard(app.currentUser.value)
    else if app.currentUser.value.role == "employer" then EmployerDashboard
    else LandingPage
  }

  /** `handleLogout`: clears the session and the user and returns to the main view. */
  function HandleLogout(w: World): (r: World)
    ensures r.app.currentUser == None && r.app.view == Main
    ensures r.store == AuthService.Logout(w.store)
    ensures r.app.loginOpen == w.app.loginOpen && r.app.signupOpen == w.app.signupOpen
  {
    World(w.app.(currentUser := None, view := Main), AuthService.Logout(w.store))
  }

  /** `openSignupModal`: clears the error, closes the login modal, opens the signup modal. */
  function OpenSignupModal(app: AppState): (r: AppState)
    ensures r.signupOpen && !r.loginOpen && r.authError == None
    ensures r.currentUser == app.currentUser && r.view == app.view
  {
    app.(authError := None, loginOpen := false, signupOpen := true)
  }

  /** `openLoginModal`: clears the error, closes the signup modal, opens the login modal. */
  function OpenLoginModal(app: AppState): (r: AppState)
    ensures r.loginOpen && !r.signupOpen && r.authError == None
    ensures r.currentUser == app.currentUser && r.view == app.view
  {
    app.(authError := None, signupOpen := false, loginOpen := true)
  }

  /** A handler's new world and its boolean answer to the modal. */
  datatype Handled = Handled(world: World, ok: bool)

  /**
   * `handleLogin`: on success sets the user, closes the login modal, clears
   * the error, shows the main view and answers true; on failure records the
   * error message and answers false, leaving everything else alone.
   */
  function HandleLogin(w: World, email: string, password: string): (r: Handled)
    ensures var step := AuthService.Login(w.store, email, password);
            && r.ok == step.result.Success?
            && r.world.store == step.store
            && (r.ok ==> r.world.app == w.app.(currentUser := Some(step.result.value), loginOpen := false,
                                               authError := None, view := Main))
            && (!r.ok ==> r.world.app == w.app.(authError := Some(AuthService.Message(AuthService.InvalidCredentials)))
                          && r.world.store == w.store)
  {
    var step := AuthService.Login(w.store, email, password);
    match step.result
    case Success(u) =>
      Handled(World(w.app.(currentUser := Some(u), loginOpen := false, authError := None, view := Main), step.store), true)
    case Failure(e) =>
      Handled(World(w.app.(authError := Some(AuthService.Message(e))), step.store), false)
  }

  /** `handleSignup`: as `handleLogin`, for the signup modal. */
  function HandleSignup(w: World, freshId: string, name: string, email: string, password: string, role: UserRole): (r: Handled)
    ensures var step := AuthService.Signup(w.store, freshId, name, email, password, role);
            && r.ok == step.result.Success?
            && r.world.store == step.store
            && (r.ok ==> r.world.app == w.app.(currentUser := Some(step.result.value), signupOpen := false,
                                               authError := None, view := Main))
            && (!r.ok ==> r.world.app == w.app.(authError := Some(AuthService.Message(AuthService.DuplicateEmail)))
                          && r.world.store == w.store)
  {
    var step := AuthService.Signup(w.store, freshId, name, email, password, role);
    match step.result
    case Success(u) =>
      Handled(World(w.app.(currentUser := Some(u), signupOpen := false, authError := None, view := Main), step.store), true)
    case Failure(e) =>
      Handled(World(w.app.(authError := Some(AuthService.Message(e))), step.store), false)
  }

  /** Everything the user can do to the controller. */
  datatype Event =
    | LoginSubmitted(email: string, password: string)
    | SignupSubmitted(freshId: string, name: string, email: string, password: string, role: UserRole)
    | LogoutClicked
    | SignupModalOpened
    | LoginModalOpened
    | LoginModalClosed
    | SignupModalClosed
    | Navigated(to: View)
    | Rerendered        // every render evaluates `getCurrentUser()` again for the initial state

  /**
   * Dispatches an event to its handler. Only the three account actions
   * touch the store or the user; a re-render may clear a malformed session
   * but keeps the user in memory; navigation sets only the view.
   */
  function Apply(w: World, e: Event): (r: World)
    ensures e.LoginSubmitted? ==> r.store == AuthService.Login(w.store, e.email, e.password).store
    ensures e.SignupSubmitted? ==>
              r.store == AuthService.Signup(w.store, e.freshId, e.name, e.email, e.password, e.role).store
    ensures e.LogoutClicked? ==> r.store == AuthService.Logout(w.store) && r.app.currentUser == None
    ensures e.Rerendered? ==> r.app == w.app && r.store == AuthService.GetCurrentUser(w.store).store
    ensures !(e.LoginSubmitted? || e.SignupSubmitted? || e.LogoutClicked? || e.Rerendered?) ==>
              r.store == w.store && r.app.currentUser == w.app.currentUser
    ensures e.Navigated? ==> r.app == w.app.(view := e.to)
  {
    match e
    case LoginSubmitted(email, password) => HandleLogin(w, email, password).world
    case SignupSubmitted(id, name, email, password, role) => HandleSignup(w, id, name, email, password, role).world
    case LogoutClicked => HandleLogout(w)
    case SignupModalOpened => w.(app := OpenSignupModal(w.app))
    case LoginModalOpened => w.(app := OpenLoginModal(w.app))
    case LoginModalClosed => w.(app := w.app.(loginOpen := false))
    case SignupModalClosed => w.(app := w.app.(signupOpen := false))
    case Navigated(v) => w.(app := w.app.(view := v))
    case Rerendered => w.(store := AuthService.GetCurrentUser(w.store).store)
  }

  /** What the signup form guarantees before submitting: required fields filled, an id assigned. */
  predicate FormComplete(e: Event)
  {
    e.SignupSubmitted? ==> e.freshId != "" && e.name != "" && e.email != ""
  }

  /** Every stored user passes the session reader's completeness check. */
  ghost predicate UsersComplete(store: AuthService.Store)
  {
    forall i :: 0 <= i < |store.users| ==> AuthService.IsComplete(store.users[i])
  }

  /**
   * The controller's invariant: at most one modal is open, and the user in
   * memory is exactly what a fresh read of the session would return.
   */
  ghost predicate Coherent(w: World)
  {
    && !(w.app.loginOpen && w.app.signupOpen)
    && UsersComplete(w.store)
    && AuthService.GetCurrentUser(w.store) == AuthService.SessionRead(w.store, w.app.currentUser)
  }

  /** Mounting on a store of complete users gives a coherent controller. */
  lemma StartCoherent(store: AuthService.Store)
    requires UsersComplete(store)
    ensures Coherent(Start(store))
  {
    AuthService.GetCurrentUserIdempotent(store);
  }

  /** Every event keeps the controller coherent. */
  lemma {:induction false} EventPreservesCoherent(w: World, e: Event)
    requires Coherent(w) && FormComplete(e)
    ensures Coherent(Apply(w, e))
  {
    match e
    case LoginSubmitted(email, password) =>
      var step := AuthService.Login(w.store, email, password);
      if step.result.Success? {
        var i :| AuthService.IsFirstMatch(w.store.users, i, email, password) && w.store.users[i] == step.result.value;
        assert AuthService.IsComplete(w.store.users[i]);
      }
    case SignupSubmitted(id, name, email, password, role) =>
      var step := AuthService.Signup(w.store, id, name, email, password, role);
      if step.result.Success? {
        var us := step.store.users;
        forall i | 0 <= i < |us|
          ensures AuthService.IsComplete(us[i])
        {
          if i < |w.store.users| {
            assert us[i] == w.store.users[i];
          }
        }
      }
    case _ =>
  }

  /** After logging out the landing page is shown, whatever was shown before. */
  lemma LogoutShowsLanding(w: World)
    ensures RenderContent(HandleLogout(w).app) == LandingPage
  {
  }

  /** A successful login shows the dashboard that matches the stored role. */
  lemma LoginShowsDashboard(w: World, email: string, password: string)
    requires HandleLogin(w, email, password).ok
    ensures var u := HandleLogin(w, email, password).world.app.currentUser.value;
            && (u.role == RoleName(Seeker) ==> RenderContent(HandleLogin(w, email, password).world.app) == JobSeekerDashboard(u))
            && (u.role == RoleName(Employer) ==> RenderContent(HandleLogin(w, email, password).world.app) == EmployerDashboard)
  {
  }

  /** A successful signup shows the dashboard for the role chosen in the form. */
  lemma SignupShowsDashboard(w: World, freshId: string, name: string, email: string, password: string, role: UserRole)
    requires HandleSignup(w, freshId, name, email, password, role).ok
    ensures var r := HandleSignup(w, freshId, name, email, password, role).world.app;
            RenderContent(r) == (if role == Seeker then JobSeekerDashboard(r.currentUser.value) else EmployerDashboard)
  {
  }

  /**
   * Re-reading the session on a re-render is harmless once the controller
   * is coherent: the read returns the user already in memory and leaves the
   * store as it is.
   */
  lemma RerenderChangesNothing(w: World)
    requires Coherent(w)
    ensures AuthService.GetCurrentUser(w.store).user == w.app.currentUser
    ensures Apply(w, Rerendered) == w
  {
  }
}
