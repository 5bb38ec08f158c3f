/** Client-side role gating: `ProtectedRoute` (src/components/ProtectedRoute.tsx),
    the `Home` redirect and the route table of src/App.tsx. */
module Routing {
  import opened Wrappers
  import opened Users
  import Api

  /** The pages the route table can show. */
  datatype Page = LoginPage | StudentDashboard | StudentMarks | TeacherSections | HodSectionSummary

  /** What a route renders: a page, or a `<Navigate>` to another path. */
  datatype View = Render(page: Page) | Redirect(to: string)

  /** `ProtectedRoute`. With no user it redirects to `/login`. With a role list
      that does not contain the user's role it redirects to `/`. An empty list
      is still a list, so it admits nobody. Otherwise it renders the
      children. */
  function ProtectedRoute(user: Option<Api.User>, roles: Option<seq<Role>>, children: Page): (v: View)
    ensures v == Render(children) <==> user.Some? && (roles.None? || user.value.role in roles.value)
    ensures user.None? ==> v == Redirect(Api.LoginPath)
    ensures user.Some? && roles.Some? && user.value.role !in roles.value ==> v == Redirect("/")
    ensures v.Redirect? ==> v.to == Api.LoginPath || v.to == "/"
  {
    if user.None? then Redirect(Api.LoginPath)
    else if roles.Some? && user.value.role !in roles.value then Redirect("/")
    else Render(children)
  }

  /** The dashboard path for each role. */
  function DashboardPath(r: Role): string {
    match r
    case Teacher => "/teacher"
    case Student => "/student"
    case Hod => "/hod"
  }

  /** `Home`: where `/` sends the user. */
  function HomeTarget(user: Option<Api.User>): (path: string)
    ensures user.None? ==> path == Api.LoginPath
    ensures user.Some? ==> path == DashboardPath(user.value.role)
  {
    if user.None? then Api.LoginPath
    else if user.value.role == Teacher then "/teacher"
    else if user.value.role == Student then "/student"
    else "/hod"
  }

  /** The routes of the table. `*` is whatever matches none of the others. */
  datatype Location =
    | Root
    | LoginRoute
    | StudentRoute
    | StudentSectionRoute(id: string)
    | TeacherRoute
    | HodRoute
    | Unmatched(path: string)

  const SectionPrefix: string := "/student/section/"

  /** Which route a path matches. Paths are compared exactly. `:id` is one
      non-empty segment. */
  function Resolve(path: string): (loc: Location)
    ensures loc == Root <==> path == "/"
    ensures loc == LoginRoute <==> path == Api.LoginPath
    ensures loc == StudentRoute <==> path == "/student"
    ensures loc == TeacherRoute <==> path == "/teacher"
    ensures loc == HodRoute <==> path == "/hod"
    ensures loc.StudentSectionRoute? ==> path == SectionPrefix + loc.id && loc.id != [] && '/' !in loc.id
    ensures |path| > |SectionPrefix| && path[..|SectionPrefix|] == SectionPrefix && '/' !in path[|SectionPrefix|..] ==>
              loc == StudentSectionRoute(path[|SectionPrefix|..])
    ensures loc.Unmatched? ==> loc.path == path
  {
    if path == "/" then Root
    else if path == Api.LoginPath then LoginRoute
    else if path == "/student" then StudentRoute
    else if path == "/teacher" then TeacherRoute
    else if path == "/hod" then HodRoute
    else if |path| > |SectionPrefix| && path[..|SectionPrefix|] == SectionPrefix && '/' !in path[|SectionPrefix|..]
    then StudentSectionRoute(path[|SectionPrefix|..])
    else Unmatched(path)
  }

  /** The role a page is guarded for, if any. */
  function PageRole(p: Page): Option<Role> {
    match p
    case LoginPage => None
    case StudentDashboard => Some(Student)
    case StudentMarks => Some(Student)
    case TeacherSections => Some(Teacher)
    case HodSectionSummary => Some(Hod)
  }

  /** The element the table mounts for a route. */
  datatype Element = HomeElement | LoginElement | Guarded(roles: seq<Role>, page: Page) | NavigateTo(path: string)

  function ElementOf(loc: Location): (e: Element)
    ensures e == HomeElement <==> loc.Root?
    ensures e == LoginElement <==> loc.LoginRoute?
    ensures e.NavigateTo? <==> loc.Unmatched?
    ensures e.NavigateTo? ==> e.path == "/"
    ensures e.Guarded? ==> |e.roles| == 1 && PageRole(e.page) == Some(e.roles[0])
    ensures loc.StudentRoute? || loc.StudentSectionRoute? ==> e.Guarded? && e.roles == [Student]
    ensures loc.TeacherRoute? ==> e.Guarded? && e.roles == [Teacher]
    ensures loc.HodRoute? ==> e.Guarded? && e.roles == [Hod]
  {
    match loc
    case Root => HomeElement
    case LoginRoute => LoginElement
    case StudentRoute => Guarded([Student], StudentDashboard)
    case StudentSectionRoute(_) => Guarded([Student], StudentMarks)
    case TeacherRoute => Guarded([Teacher], TeacherSections)
    case HodRoute => Guarded([Hod], HodSectionSummary)
    case Unmatched(_) => NavigateTo("/")
  }

  /** What the application shows at `path` for `user`. */
  function Show(path: string, user: Option<Api.User>): (v: View)
    ensures v.Render? && PageRole(v.page).Some? ==> user.Some? && user.value.role == PageRole(v.page).value
    ensures user.None? && v.Render? ==> v.page == LoginPage
    ensures v.Redirect? ==> v.to == "/" || v.to == Api.LoginPath || (user.Some? && v.to == DashboardPath(user.value.role))
    ensures Resolve(path).LoginRoute? ==> v == Render(LoginPage)
    ensures Resolve(path).Unmatched? ==> v == Redirect("/")
  {
    match ElementOf(Resolve(path))
    case HomeElement => Redirect(HomeTarget(user))
    case LoginElement => Render(LoginPage)
    case Guarded(roles, page) => ProtectedRoute(user, Some(roles), page)
    case NavigateTo(to) => Redirect(to)
  }

  /** Follows redirects from `path` for at most `hops` navigations. */
  function Settle(path: string, user: Option<Api.User>, hops: nat): (r: Option<Page>)
    ensures r.Some? && PageRole(r.value).Some? ==> user.Some? && user.value.role == PageRole(r.value).value
    ensures user.None? && r.Some? ==> r.value == LoginPage
    decreases hops
  {
    match Show(path, user)
    case Render(page) => Some(page)
    case Redirect(to) => if hops == 0 then None else Settle(to, user, hops - 1)
  }

  /** Each dashboard is guarded by exactly the role `Home` sends there, so
      `Home`'s target always admits the user it was chosen for. */
  lemma HomeTargetAdmits(u: Api.User)
    ensures ElementOf(Resolve(HomeTarget(Some(u)))).Guarded?
    ensures ElementOf(Resolve(HomeTarget(Some(u)))).roles == [u.role]
    ensures Show(HomeTarget(Some(u)), Some(u)).Render?
  {
  }

  /** A dashboard admits only the role it belongs to. */
  lemma DashboardAdmitsOnlyItsRole(r: Role, u: Api.User)
    ensures Show(DashboardPath(r), Some(u)).Render? <==> u.role == r
  {
  }

  /** A path that matches no route redirects to `/`. */
  lemma UnmatchedGoesHome(path: string, user: Option<Api.User>)
    requires Resolve(path).Unmatched?
    ensures Show(path, user) == Redirect("/")
  {
  }

  /** Without a user every path ends on the login page. With a user, every
      path ends on a page within three navigations. No path loops. */
  lemma EveryPathSettles(path: string, user: Option<Api.User>)
    ensures Settle(path, user, 3).Some?
    ensures user.None? ==> Settle(path, user, 3) == Some(LoginPage)
  {
    match Show(path, user)
    case Render(_) =>
    case Redirect(to) =>
      assert to == "/" || to == Api.LoginPath || (user.Some? && to == DashboardPath(user.value.role));
      if user.Some? {
        HomeTargetAdmits(user.value);
      }
  }
}
