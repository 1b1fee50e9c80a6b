/** The route table and its two guards: which page, or which redirect, a path shows
    for the current session.  Only whether a user is logged in is consulted. */
module Routes {
  import opened Wrappers
  import opened Auth

  datatype Page =
    | LoginPage | DashboardPage | EventsPage | CustomersPage | ReviewsPage
    | CinemasPage | SettingsPage | NotFoundPage

  /** A rendered page, or `<Navigate to state replace />`; `from` is the location the
      redirect carries in its state. */
  datatype Element = Show(page: Page) | Redirect(to: string, from: Option<string>, replace: bool)

  /** `RequireAuth`: without a user, a redirect to the login page that remembers where
      the visitor was going; with one, the children unchanged. */
  function RequireAuth(user: Option<User>, location: string, children: Element): (e: Element)
    ensures user.None? ==> e == Redirect("/login", Some(location), true)
    ensures user.Some? ==> e == children
  {
    if user.None? then Redirect("/login", Some(location), true) else children
  }

  /** `PublicRoute`: with a user, a redirect to the dashboard; without one, the children. */
  function PublicRoute(user: Option<User>, children: Element): (e: Element)
    ensures user.Some? ==> e == Redirect("/dashboard", None, true)
    ensures user.None? ==> e == children
  {
    if user.Some? then Redirect("/dashboard", None, true) else children
  }

  /** The six paths nested in the layout behind the auth guard. */
  const GuardedPaths: set<string> :=
    {"/dashboard", "/events", "/customer", "/reviews", "/cinemas", "/settings"}

  /** Every path the table names: the login page, the index and the guarded paths. */
  const RoutedPaths: set<string> := {"/login", "/"} + GuardedPaths

  /** The pages nested in the layout behind the auth guard. */
  function ProtectedPage(path: string): (p: Option<Page>)
    ensures p.Some? <==> path in GuardedPaths
    ensures p.Some? ==> p.value != LoginPage && p.value != NotFoundPage
  {
    if path == "/dashboard" then Some(DashboardPage)
    else if path == "/events" then Some(EventsPage)
    else if path == "/customer" then Some(CustomersPage)
    else if path == "/reviews" then Some(ReviewsPage)
    else if path == "/cinemas" then Some(CinemasPage)
    else if path == "/settings" then Some(SettingsPage)
    else None
  }

  /** What a path shows: whether inside the layout, and the element. */
  datatype Screen = Screen(inLayout: bool, element: Element)

  /** `AppRoutes`: the not-found page exactly for the paths the table does not name,
      in the layout exactly for the index and the guarded paths, the login page only
      through the public guard and every guarded page only through the auth guard. */
  function Resolve(path: string, user: Option<User>): (s: Screen)
    ensures s.element == Show(NotFoundPage) <==> path !in RoutedPaths
    ensures s.inLayout <==> path in RoutedPaths && path != "/login"
    ensures path == "/login" ==> s.element == PublicRoute(user, Show(LoginPage))
    ensures path == "/" ==> s.element == Redirect("/dashboard", None, true)
    ensures path in GuardedPaths ==> s.element == RequireAuth(user, path, Show(ProtectedPage(path).value))
  {
    if path == "/login" then Screen(false, PublicRoute(user, Show(LoginPage)))
    else if path == "/" then Screen(true, Redirect("/dashboard", None, true))
    else if ProtectedPage(path).Some? then
      Screen(true, RequireAuth(user, path, Show(ProtectedPage(path).value)))
    else Screen(false, Show(NotFoundPage))
  }

  predicate IsProtected(p: Page) {
    p != LoginPage && p != NotFoundPage
  }

  /** The table names eight paths, and for a signed-in user each page other than the
      not-found page is shown at exactly one of them. */
  lemma EachPageOnePath(path: string, other: string, u: User)
    ensures |RoutedPaths| == 8
    ensures var e := Resolve(path, Some(u)).element;
            e.Show? && e.page != NotFoundPage && Resolve(other, Some(u)).element == e ==> path == other
  {
    assert "/login" !in GuardedPaths && "/" !in GuardedPaths;
    assert |GuardedPaths| == 6;
  }

  /** Without a session no path shows a protected page, and every protected path
      redirects to the login page carrying that path; with a session `/login` never
      shows the login form. */
  lemma GuardsHold(path: string, user: Option<User>)
    ensures user.None? ==> !(Resolve(path, None).element.Show? && IsProtected(Resolve(path, None).element.page))
    ensures user.None? && ProtectedPage(path).Some? ==>
              Resolve(path, user).element == Redirect("/login", Some(path), true)
    ensures user.Some? ==> Resolve("/login", user).element != Show(LoginPage)
    ensures user.Some? && ProtectedPage(path).Some? ==>
              Resolve(path, user).element == Show(ProtectedPage(path).value)
  {
  }

  /** Only the presence of a user matters, never its fields. */
  lemma OnlyPresenceMatters(path: string, u: User, v: User)
    ensures Resolve(path, Some(u)) == Resolve(path, Some(v))
  {
  }

  /** Following one redirect: a logged-in visitor at `/login` or `/` lands on the
      dashboard; a visitor without a session at a protected path lands on the login
      form. */
  lemma RedirectsLand(path: string, user: Option<User>)
    ensures user.Some? && (path == "/login" || path == "/") ==>
              Resolve(Resolve(path, user).element.to, user).element == Show(DashboardPage)
    ensures user.None? && ProtectedPage(path).Some? ==>
              Resolve(Resolve(path, user).element.to, user).element == Show(LoginPage)
  {
  }
}
