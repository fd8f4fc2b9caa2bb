/** The application's route table and the `PrivateRoute` guard in front of the signed-in pages:
    while the session is being restored the loading screen is shown, then either the page or a
    redirect to `/login`. */
module PrivateRoute {
  import opened Common

  /** What the guard renders. */
  datatype Guard = LoadingScreen | Outlet | Navigate(to: string)

  /** `PrivateRoute`: `loading` wins over `isAuthenticated`. */
  function Decide(loading: bool, authenticated: bool): (g: Guard)
    ensures loading ==> g == LoadingScreen
    ensures !loading ==> (g == Outlet <==> authenticated)
    ensures !loading && !authenticated ==> g == Navigate("/login")
  {
    if loading then LoadingScreen
    else if authenticated then Outlet
    else Navigate("/login")
  }

  datatype Route =
    | Home
    | Login
    | Register
    | About
    | Dashboard
    | AnalysisRoute(kind: string)
    | CameraAnalysisRoute(kind: string)
    | Gallery

  /** The four routes nested under the guard. */
  predicate Guarded(r: Route) {
    r.Dashboard? || r.AnalysisRoute? || r.CameraAnalysisRoute? || r.Gallery?
  }

  /** A value a `:type` segment can take: non-empty and without a separator. */
  predicate IsSegment(s: string) {
    s != "" && forall i :: 0 <= i < |s| ==> s[i] != '/'
  }

  predicate WellFormed(r: Route) {
    (r.AnalysisRoute? || r.CameraAnalysisRoute?) ==> IsSegment(r.kind)
  }

  const AnalysisPrefix := "/analysis/"
  const CameraPrefix := "/camera-analysis/"

  function PathOf(r: Route): (p: string)
    ensures |p| > 0 && p[0] == '/'
  {
    match r
    case Home => "/"
    case Login => "/login"
    case Register => "/register"
    case About => "/about"
    case Dashboard => "/dashboard"
    case AnalysisRoute(k) => AnalysisPrefix + k
    case CameraAnalysisRoute(k) => CameraPrefix + k
    case Gallery => "/gallery"
  }

  /** The route a path selects, if any. */
  function Match(p: string): (r: Option<Route>)
    ensures r.Some? ==> WellFormed(r.value)
  {
    if p == "/" then Some(Home)
    else if p == "/login" then Some(Login)
    else if p == "/register" then Some(Register)
    else if p == "/about" then Some(About)
    else if p == "/dashboard" then Some(Dashboard)
    else if p == "/gallery" then Some(Gallery)
    else if IsPrefix(AnalysisPrefix, p) && IsSegment(p[|AnalysisPrefix|..]) then Some(AnalysisRoute(p[|AnalysisPrefix|..]))
    else if IsPrefix(CameraPrefix, p) && IsSegment(p[|CameraPrefix|..]) then Some(CameraAnalysisRoute(p[|CameraPrefix|..]))
    else None
  }

  /** A path selects the route whose path it is. */
  lemma MatchPathOf(r: Route)
    requires WellFormed(r)
    ensures Match(PathOf(r)) == Some(r)
  {
    var p := PathOf(r);
    match r
    case AnalysisRoute(k) =>
      assert p[..|AnalysisPrefix|] == AnalysisPrefix && p[|AnalysisPrefix|..] == k;
    case CameraAnalysisRoute(k) =>
      assert p[..|CameraPrefix|] == CameraPrefix && p[|CameraPrefix|..] == k;
      assert p[1] != AnalysisPrefix[1];
    case _ =>
  }

  /** A route selected by a path has that path. */
  lemma PathOfMatch(p: string)
    requires Match(p).Some?
    ensures PathOf(Match(p).value) == p
  {
    var r := Match(p).value;
    if r.AnalysisRoute? {
      assert p == p[..|AnalysisPrefix|] + p[|AnalysisPrefix|..];
    } else if r.CameraAnalysisRoute? {
      assert p == p[..|CameraPrefix|] + p[|CameraPrefix|..];
    }
  }

  datatype Screen = Page(route: Route) | Guarding(guard: Guard) | NoMatch

  /** What the router shows for a path. */
  function Show(p: string, loading: bool, authenticated: bool): (s: Screen)
    ensures Match(p).None? ==> s == NoMatch
    ensures s.Page? ==> Match(p) == Some(s.route)
  {
    match Match(p)
    case None => NoMatch
    case Some(r) =>
      if !Guarded(r) then Page(r)
      else match Decide(loading, authenticated)
        case Outlet => Page(r)
        case g => Guarding(g)
  }

  /** A signed-in page is shown only once the session is known and is authenticated; the open
      pages are shown whatever the session. */
  lemma GuardedPagesNeedSession(p: string, loading: bool, authenticated: bool)
    requires Match(p).Some?
    ensures Guarded(Match(p).value) ==> (Show(p, loading, authenticated).Page? <==> !loading && authenticated)
    ensures !Guarded(Match(p).value) ==> Show(p, loading, authenticated) == Page(Match(p).value)
  {
  }
}
