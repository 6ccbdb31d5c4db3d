/** The client's routes (src/App.jsx): the page each path shows, and the
    role gate `ProtectedRoute` puts in front of the three private pages. */
module Routes {
  import opened Wrappers
  import opened PlainObjects

  datatype Page =
    | Landing | LoginSelection | PatientLogin | DoctorLogin | Register | DoctorRegister
    | PatientDashboard | DoctorDashboard | AuditHistory | NotFound

  /** What `ProtectedRoute` renders: the loading screen, a `<Navigate>`,
      or its children. */
  datatype Screen = LoadingScreen | Redirect(to: string) | Children

  /** `user.role`. */
  function RoleOf(user: Fields): Option<string> {
    Get(user, "role")
  }

  /** `allowedRoles.includes(user.role)`; a missing role is `undefined`,
      which no list of strings includes. */
  predicate Admits(allowedRoles: seq<string>, user: Fields) {
    RoleOf(user).Some? && RoleOf(user).value in allowedRoles
  }

  /** The dashboard a user whose role is refused is sent to. */
  function HomeOf(user: Fields): string {
    if RoleOf(user) == Some("doctor") then "/doctor-dashboard" else "/dashboard"
  }

  /** `ProtectedRoute`: `user` is `None` for `null`, `allowedRoles` is
      `None` when the prop is not given. */
  function Guard(loading: bool, user: Option<Fields>, allowedRoles: Option<seq<string>>): (s: Screen)
    ensures loading ==> s == LoadingScreen
    ensures !loading && user.None? ==> s == Redirect("/login")
    ensures !loading && user.Some? && allowedRoles.Some? && !Admits(allowedRoles.value, user.value) ==>
      s == Redirect(if RoleOf(user.value) == Some("doctor") then "/doctor-dashboard" else "/dashboard")
    ensures !loading && user.Some? && (allowedRoles.None? || Admits(allowedRoles.value, user.value)) ==>
      s == Children
  {
    if loading then LoadingScreen
    else if user.None? then Redirect("/login")
    else if allowedRoles.Some? && !Admits(allowedRoles.value, user.value) then Redirect(HomeOf(user.value))
    else Children
  }

  /** A route of the table: its page and, when it is wrapped in
      `ProtectedRoute`, the roles it is given. */
  datatype Route = Route(page: Page, gate: Option<seq<string>>)

  /** The `<Routes>` table; every other path is the catch-all. Exactly the
      three dashboards are gated, each to one role. */
  function RouteOf(path: string): (r: Route)
    ensures r.gate.Some? <==> r.page in {PatientDashboard, DoctorDashboard, AuditHistory}
    ensures r.gate.Some? ==> r.gate.value == ["patient"] || r.gate.value == ["doctor"]
  {
    if path == "/" then Route(Landing, None)
    else if path == "/login" then Route(LoginSelection, None)
    else if path == "/login/patient" then Route(PatientLogin, None)
    else if path == "/login/doctor" then Route(DoctorLogin, None)
    else if path == "/register/patient" then Route(Register, None)
    else if path == "/register/doctor" then Route(DoctorRegister, None)
    else if path == "/dashboard" then Route(PatientDashboard, Some(["patient"]))
    else if path == "/doctor-dashboard" then Route(DoctorDashboard, Some(["doctor"]))
    else if path == "/audit" then Route(AuditHistory, Some(["patient"]))
    else Route(NotFound, None)
  }

  /** What a visit to a path shows. */
  datatype View = Loading | Redirected(to: string) | Shows(page: Page)

  /** A page only ever shows on its own path, public pages always show,
      only private pages wait for the session, and every redirect goes to
      the login choice or to a dashboard. */
  function Visit(path: string, loading: bool, user: Option<Fields>): (v: View)
    ensures v.Shows? ==> v.page == RouteOf(path).page
    ensures RouteOf(path).gate.None? ==> v == Shows(RouteOf(path).page)
    ensures v == Loading <==> RouteOf(path).gate.Some? && loading
    ensures v.Redirected? ==> v.to in {"/login", "/dashboard", "/doctor-dashboard"}
  {
    var route := RouteOf(path);
    if route.gate.None? then Shows(route.page)
    else
      match Guard(loading, user, route.gate)
      case LoadingScreen => Loading
      case Redirect(to) => Redirected(to)
      case Children => Shows(route.page)
  }

  /** A path is private exactly when it is one of the three dashboards. */
  lemma PrivatePaths(path: string)
    ensures RouteOf(path).gate.Some? <==> path in {"/dashboard", "/doctor-dashboard", "/audit"}
  {
  }

  /** `/dashboard` and `/audit` admit patients and no one else;
      `/doctor-dashboard` admits doctors and no one else. */
  lemma RouteGates(user: Fields)
    ensures Admits(RouteOf("/dashboard").gate.value, user) <==> RoleOf(user) == Some("patient")
    ensures Admits(RouteOf("/audit").gate.value, user) <==> RoleOf(user) == Some("patient")
    ensures Admits(RouteOf("/doctor-dashboard").gate.value, user) <==> RoleOf(user) == Some("doctor")
  {
  }

  /** A signed-in user sees a private page exactly when its gate admits
      the user's role; public pages show to everyone. */
  lemma ShowsIffAdmitted(path: string, user: Fields)
    ensures Visit(path, false, Some(user)) == Shows(RouteOf(path).page)
        <==> RouteOf(path).gate.None? || Admits(RouteOf(path).gate.value, user)
  {
  }

  /** Signed-out visitors of a private page are sent to the login choice,
      which always shows. */
  lemma SignedOutGoesToLogin(path: string, loading: bool)
    requires RouteOf(path).gate.Some? && !loading
    ensures Visit(path, loading, None) == Redirected("/login")
    ensures Visit("/login", loading, None) == Shows(LoginSelection)
  {
  }

  /** For the two roles a login produces, one redirect lands on a page
      that shows, so redirects never loop. */
  lemma NoRedirectLoop(path: string, user: Fields, target: string)
    requires RoleOf(user) == Some("patient") || RoleOf(user) == Some("doctor")
    requires Visit(path, false, Some(user)) == Redirected(target)
    ensures Visit(target, false, Some(user)).Shows?
    ensures target == HomeOf(user)
  {
    RouteGates(user);
  }

  /** A signed-in user with any other role (or none) is sent to
      `/dashboard`, which sends them to itself again. */
  lemma OtherRolesLoop(user: Fields)
    requires RoleOf(user) != Some("patient") && RoleOf(user) != Some("doctor")
    ensures Visit("/doctor-dashboard", false, Some(user)) == Redirected("/dashboard")
    ensures Visit("/dashboard", false, Some(user)) == Redirected("/dashboard")
  {
    RouteGates(user);
  }
}
