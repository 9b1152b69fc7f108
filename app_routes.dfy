/** The client's route table and its two guards: a protected route shows
    its page only to a signed-in user whose role it allows, and a public
    route only to a signed-out visitor. A location is given as its path
    segments (`/expenses/42/edit` is `["expenses", "42", "edit"]`). */
module AppRoutes {
  import opened Common
  import opened AuthContext
  import opened Sidebar

  datatype Page =
    | Login | Signup | ForgotPassword | ResetPassword
    | Dashboard | ExpenseList | ExpenseForm | ExpenseDetail | ApprovalList
    | UserList | UserForm | ApprovalRuleList | ApprovalRuleForm | Profile | CompanySettings

  /** What the router renders: the loading spinner, a redirect, or a page. */
  datatype View = Spinner | Redirect(to: string) | Show(page: Page)

  /** The route a location selects: a public page, a page inside the signed-in
      layout (with the roles its own guard allows, `[]` for any), the layout's
      index, or nothing (the catch-all). */
  datatype RouteMatch = PublicPage(page: Page) | LayoutPage(roles: seq<string>, page: Page) | LayoutIndex | NoMatch

  predicate IsPublic(p: Page) {
    p == Login || p == Signup || p == ForgotPassword || p == ResetPassword
  }

  const Reviewers: seq<string> := ["admin", "manager"]
  const AdminOnly: seq<string> := ["admin"]

  /** The route table. A static segment wins over a `:id` segment, so
      `expenses/new` is the form and not the detail of an expense `new`. */
  function MatchRoute(path: seq<string>): RouteMatch {
    if |path| == 0 then LayoutIndex
    else if |path| == 1 then MatchTop(path[0])
    else if |path| == 2 then MatchItem(path[0], path[1])
    else if |path| == 3 && path[2] == "edit" then MatchEdit(path[0])
    else NoMatch
  }

  /** Locations of one segment. */
  function MatchTop(segment: string): RouteMatch {
    match segment
    case "login" => PublicPage(Login)
    case "signup" => PublicPage(Signup)
    case "forgot-password" => PublicPage(ForgotPassword)
    case "reset-password" => PublicPage(ResetPassword)
    case "dashboard" => LayoutPage([], Dashboard)
    case "expenses" => LayoutPage([], ExpenseList)
    case "approvals" => LayoutPage(Reviewers, ApprovalList)
    case "users" => LayoutPage(AdminOnly, UserList)
    case "approval-rules" => LayoutPage(AdminOnly, ApprovalRuleList)
    case "profile" => LayoutPage([], Profile)
    case "company-settings" => LayoutPage(AdminOnly, CompanySettings)
    case _ => NoMatch
  }

  /** Locations of two segments: the `new` forms and an expense's detail. */
  function MatchItem(section: string, item: string): RouteMatch {
    if section == "expenses" then LayoutPage([], if item == "new" then ExpenseForm else ExpenseDetail)
    else if item != "new" then NoMatch
    else if section == "users" then LayoutPage(AdminOnly, UserForm)
    else if section == "approval-rules" then LayoutPage(AdminOnly, ApprovalRuleForm)
    else NoMatch
  }

  /** Locations `<section>/:id/edit`. */
  function MatchEdit(section: string): RouteMatch {
    if section == "expenses" then LayoutPage([], ExpenseForm)
    else if section == "users" then LayoutPage(AdminOnly, UserForm)
    else if section == "approval-rules" then LayoutPage(AdminOnly, ApprovalRuleForm)
    else NoMatch
  }

  /** `allowedRoles.includes(user.role)`; a user without a role is in no list. */
  predicate RoleAllowed(s: AuthState, allowed: seq<string>) {
    UserRole(s.user).Some? && UserRole(s.user).value in allowed
  }

  /** `ProtectedRoute`. It reads `user.role` only when the list is non-empty
      and the session is authenticated, and needs a user there. */
  function ProtectedRoute(s: AuthState, allowed: seq<string>, child: View): View
    requires s.isAuthenticated && |allowed| > 0 ==> s.user.Some?
  {
    if s.loading then Spinner
    else if !s.isAuthenticated then Redirect("/login")
    else if |allowed| > 0 && !RoleAllowed(s, allowed) then Redirect("/dashboard")
    else child
  }

  /** `PublicRoute`. */
  function PublicRoute(s: AuthState, child: View): View {
    if s.loading then Spinner
    else if s.isAuthenticated then Redirect("/dashboard")
    else child
  }

  /** `App`: the spinner while the session loads, otherwise the matched route
      behind its guards. A layout page sits behind the layout's guard (no
      roles) and then its own. */
  function Render(s: AuthState, path: seq<string>): View
    requires Consistent(s)
  {
    if s.loading then Spinner
    else match MatchRoute(path)
      case PublicPage(p) => PublicRoute(s, Show(p))
      case LayoutPage(roles, p) => ProtectedRoute(s, [], ProtectedRoute(s, roles, Show(p)))
      case LayoutIndex => ProtectedRoute(s, [], Redirect("/dashboard"))
      case NoMatch => Redirect("/dashboard")
  }

  /** The path segments of the two redirect targets. */
  function TargetPath(to: string): seq<string> {
    if to == "/login" then ["login"] else if to == "/dashboard" then ["dashboard"] else []
  }

  /** While the session loads every location shows the spinner. */
  lemma LoadingShowsSpinner(s: AuthState, path: seq<string>)
    requires Consistent(s) && s.loading
    ensures Render(s, path) == Spinner
  {
  }

  /** A signed-out visitor sees only the public pages; every other known
      location sends the visitor to the login page. */
  lemma SignedOutSeesOnlyPublicPages(s: AuthState, path: seq<string>)
    requires Consistent(s) && !s.loading && !s.isAuthenticated
    ensures Render(s, path).Show? ==> IsPublic(Render(s, path).page)
    ensures MatchRoute(path).LayoutPage? || MatchRoute(path).LayoutIndex? ==> Render(s, path) == Redirect("/login")
  {
  }

  /** A signed-in user never sees a public page. */
  lemma SignedInSeesNoPublicPage(s: AuthState, path: seq<string>)
    requires Consistent(s) && !s.loading && s.isAuthenticated
    ensures Render(s, path).Show? ==> !IsPublic(Render(s, path).page)
    ensures MatchRoute(path).PublicPage? ==> Render(s, path) == Redirect("/dashboard")
  {
  }

  /** A signed-in user sees a layout page exactly when the page's own role
      list is empty or holds the user's role; otherwise the user is sent to
      the dashboard. */
  lemma PageShownExactlyWhenRoleAllowed(s: AuthState, path: seq<string>)
    requires Consistent(s) && !s.loading && s.isAuthenticated && MatchRoute(path).LayoutPage?
    ensures var m := MatchRoute(path);
      Render(s, path) == Show(m.page) <==> m.roles == [] || RoleAllowed(s, m.roles)
    ensures Render(s, path) != Show(MatchRoute(path).page) ==> Render(s, path) == Redirect("/dashboard")
  {
  }

  /** The role lists of the guarded routes, and `:id` routes that do not
      swallow their static neighbours. */
  lemma RouteRoles(id: string)
    ensures MatchRoute(["approvals"]) == LayoutPage(["admin", "manager"], ApprovalList)
    ensures MatchRoute(["users"]).roles == ["admin"] && MatchRoute(["users", "new"]).roles == ["admin"]
    ensures MatchRoute(["users", id, "edit"]).roles == ["admin"]
    ensures MatchRoute(["approval-rules"]).roles == ["admin"] && MatchRoute(["approval-rules", "new"]).roles == ["admin"]
    ensures MatchRoute(["approval-rules", id, "edit"]).roles == ["admin"]
    ensures MatchRoute(["company-settings"]).roles == ["admin"]
    ensures MatchRoute(["dashboard"]).roles == [] && MatchRoute(["expenses"]).roles == [] && MatchRoute(["profile"]).roles == []
    ensures MatchRoute(["expenses", "new"]) == LayoutPage([], ExpenseForm)
    ensures id != "new" ==> MatchRoute(["expenses", id]) == LayoutPage([], ExpenseDetail)
  {
  }

  /** Redirects end on a page: a redirect goes to the login page or the
      dashboard, and following at most two of them reaches a page. */
  lemma {:induction false} RedirectsSettle(s: AuthState, path: seq<string>)
    requires Consistent(s) && !s.loading
    ensures Render(s, path).Redirect? ==> Render(s, path).to in {"/login", "/dashboard"}
    ensures !s.isAuthenticated ==> Render(s, ["login"]) == Show(Login) && Render(s, ["dashboard"]) == Redirect("/login")
    ensures s.isAuthenticated ==> Render(s, ["dashboard"]) == Show(Dashboard) && Render(s, ["login"]) == Redirect("/dashboard")
    ensures Render(s, path).Redirect? ==>
      var next := Render(s, TargetPath(Render(s, path).to));
      next.Show? || (next.Redirect? && Render(s, TargetPath(next.to)).Show?)
  {
    assert MatchRoute(["login"]) == PublicPage(Login);
    assert MatchRoute(["dashboard"]) == LayoutPage([], Dashboard);
  }

  /** The route behind each sidebar link: the first two links are open to
      every signed-in user and listed for all three roles, and each other
      link's route allows exactly the roles the sidebar lists it for. */
  lemma LinkRoute(i: nat)
    requires i < |Navigation|
    ensures var m := MatchRoute([Navigation[i].href[1..]]);
      m.LayoutPage? &&
      (i < 2 ==> m.roles == [] && Navigation[i].roles == ["admin", "manager", "employee"]) &&
      (2 <= i ==> m.roles == Navigation[i].roles)
  {
    var n := Navigation;
    if i == 0 { assert n[0].href[1..] == "dashboard"; }
    else if i == 1 { assert n[1].href[1..] == "expenses"; }
    else if i == 2 { assert n[2].href[1..] == "approvals"; }
    else if i == 3 { assert n[3].href[1..] == "users"; }
    else if i == 4 { assert n[4].href[1..] == "approval-rules"; }
    else { assert n[5].href[1..] == "company-settings"; }
  }

  /** For the three roles, the sidebar lists an entry exactly when the
      route behind its link shows its page to that user. */
  lemma MenuMatchesRoutes(s: AuthState, i: nat)
    requires Consistent(s) && !s.loading && s.isAuthenticated
    requires UserRole(s.user) in {Some("admin"), Some("manager"), Some("employee")}
    requires i < |Navigation|
    ensures Navigation[i] in FilterByRole(Navigation, UserRole(s.user)) <==> Render(s, [Navigation[i].href[1..]]).Show?
  {
    FilterMembership(Navigation, UserRole(s.user), Navigation[i]);
    LinkRoute(i);
    PageShownExactlyWhenRoleAllowed(s, [Navigation[i].href[1..]]);
  }

  /** A user whose role is none of the three gets an empty sidebar, yet the
      routes without a role list still show their pages to that user. */
  lemma UnknownRoleStillReachesOpenPages(s: AuthState)
    requires Consistent(s) && !s.loading && s.isAuthenticated
    requires UserRole(s.user) !in {Some("admin"), Some("manager"), Some("employee")}
    ensures FilterByRole(Navigation, UserRole(s.user)) == []
    ensures Render(s, ["dashboard"]) == Show(Dashboard) && Render(s, ["expenses"]) == Show(ExpenseList)
    ensures Render(s, ["approvals"]) == Redirect("/dashboard")
  {
    OtherRoleMenu(UserRole(s.user));
  }
}
