/**
 * The application's routes and the guard in front of the two dashboards:
 * a dashboard renders only with a stored token and, when the route names a
 * role, a stored role equal to it.
 */
module Routing {
  import opened JsValues
  import opened Login

  datatype Page = HomePage | LoginPage | SignupPage | StudentDashboardPage | MentorDashboardPage

  /** What a path shows: a page, a redirect to "/login" (with `replace`), or nothing. */
  datatype Outcome = Render(page: Page) | RedirectToLogin | NoMatch

  /** `ProtectedRoute`: does it render its children for the required `role`? */
  function ProtectedRoute(storage: map<string, string>, role: Option<string>): (admit: bool)
    ensures !Truthy(GetItem(storage, "token")) ==> !admit
    ensures Truthy(role) && GetItem(storage, "role") != Some(role.value) ==> !admit
    ensures Truthy(GetItem(storage, "token")) && (!Truthy(role) || GetItem(storage, "role") == Some(role.value)) ==> admit
  {
    var token := GetItem(storage, "token");
    var userRole := GetItem(storage, "role");
    if !Truthy(token) then false
    else if Truthy(role) && userRole != Some(role.value) then false
    else true
  }

  /** A route whose element is wrapped in the guard. */
  function Guarded(page: Page, role: string, storage: map<string, string>): Outcome {
    if ProtectedRoute(storage, Some(role)) then Render(page) else RedirectToLogin
  }

  /** An ASCII letter in lower case; every other character as it is. */
  function LowerAscii(c: char): (r: char)
    ensures 'A' <= c <= 'Z' ==> r as int == c as int + 32
    ensures !('A' <= c <= 'Z') ==> r == c
    ensures !('A' <= r <= 'Z')
  {
    if 'A' <= c <= 'Z' then (c as int + 32) as char else c
  }

  function Lower(s: string): (r: string)
    ensures |r| == |s|
    ensures forall i :: 0 <= i < |s| ==> r[i] == LowerAscii(s[i])
  {
    seq(|s|, i requires 0 <= i < |s| => LowerAscii(s[i]))
  }

  /** `s` without its trailing slashes. */
  function DropTrailingSlashes(s: string): (r: string)
    ensures |r| <= |s| && r == s[..|r|]
    ensures r == [] || r[|r| - 1] != '/'
    ensures forall i :: |r| <= i < |s| ==> s[i] == '/'
  {
    if s != [] && s[|s| - 1] == '/' then DropTrailingSlashes(s[..|s| - 1]) else s
  }

  /**
   * What the router compares with a route's path: route matching ignores
   * ASCII case and trailing slashes, and a path of slashes only is the root.
   */
  function RouteKey(path: string): string {
    var t := DropTrailingSlashes(Lower(path));
    if t == [] then "/" else t
  }

  /** The route table, matched on the route key of the path. */
  function Resolve(path: string, storage: map<string, string>): Outcome {
    var key := RouteKey(path);
    if key == "/" || key == "/home" then Render(HomePage)
    else if key == "/login" then Render(LoginPage)
    else if key == "/signup" then Render(SignupPage)
    else if key == "/student-dashboard" then Guarded(StudentDashboardPage, "student", storage)
    else if key == "/mentor-dashboard" then Guarded(MentorDashboardPage, "mentor", storage)
    else NoMatch
  }

  /** Normalising a second time changes nothing. */
  lemma RouteKeyIdempotent(path: string)
    ensures RouteKey(RouteKey(path)) == RouteKey(path)
  {
    var l := Lower(path);
    var t := DropTrailingSlashes(l);
    if t == [] {
      assert Lower("/") == "/";
      assert DropTrailingSlashes("/") == [];
    } else {
      assert Lower(t) == t by {
        forall i | 0 <= i < |t| ensures Lower(t)[i] == t[i] {
          assert t[i] == l[i];
        }
      }
      assert DropTrailingSlashes(t) == t;
    }
  }

  /** The router shows the same thing for a path and for its route key. */
  lemma ResolveByKey(path: string, storage: map<string, string>)
    ensures Resolve(path, storage) == Resolve(RouteKey(path), storage)
  {
    RouteKeyIdempotent(path);
  }

  /** The public routes' own paths are their route keys. */
  lemma PublicRouteKeys()
    ensures RouteKey("/") == "/" && RouteKey("/home") == "/home"
    ensures RouteKey("/login") == "/login" && RouteKey("/signup") == "/signup"
  {
    KeyOfRoute("/");
    KeyOfRoute("/home");
    KeyOfRoute("/login");
    KeyOfRoute("/signup");
  }

  /** The dashboards' own paths are their route keys. */
  lemma DashboardRouteKeys()
    ensures RouteKey("/student-dashboard") == "/student-dashboard"
    ensures RouteKey("/mentor-dashboard") == "/mentor-dashboard"
  {
    KeyOfRoute("/student-dashboard");
    KeyOfRoute("/mentor-dashboard");
  }

  /** A non-empty path in lower case without a trailing slash, or the root, is its own key. */
  lemma KeyOfRoute(path: string)
    requires path != []
    requires forall i :: 0 <= i < |path| ==> !('A' <= path[i] <= 'Z')
    requires path == "/" || path[|path| - 1] != '/'
    ensures RouteKey(path) == path
  {
    var l := Lower(path);
    assert l == path by {
      forall i | 0 <= i < |path| ensures l[i] == path[i] {
      }
    }
    if path == "/" {
      assert DropTrailingSlashes(path) == DropTrailingSlashes([]);
    }
  }

  /** "/Student-Dashboard/" reaches the student dashboard, behind the same guard. */
  lemma CaseAndSlashReachTheGuard(storage: map<string, string>)
    ensures Resolve("/Student-Dashboard/", storage) == Resolve("/student-dashboard", storage)
  {
    assert Lower("/Student-Dashboard/") == "/student-dashboard/";
    assert DropTrailingSlashes("/student-dashboard/") == DropTrailingSlashes("/student-dashboard");
    KeyOfRoute("/student-dashboard");
  }

  predicate IsDashboard(path: string) {
    path == "/student-dashboard" || path == "/mentor-dashboard"
  }

  /** Without a token every dashboard redirects to the login page. */
  lemma NoTokenRedirects(path: string, storage: map<string, string>)
    requires IsDashboard(path) && !Truthy(GetItem(storage, "token"))
    ensures Resolve(path, storage) == RedirectToLogin
  {
    DashboardRouteKeys();
  }

  /** A dashboard renders exactly when a token is stored and the stored role is its role. */
  lemma DashboardAdmission(storage: map<string, string>)
    ensures Resolve("/student-dashboard", storage) == Render(StudentDashboardPage) <==>
      Truthy(GetItem(storage, "token")) && GetItem(storage, "role") == Some("student")
    ensures Resolve("/mentor-dashboard", storage) == Render(MentorDashboardPage) <==>
      Truthy(GetItem(storage, "token")) && GetItem(storage, "role") == Some("mentor")
    ensures Resolve("/student-dashboard", storage) != Render(StudentDashboardPage) ==> Resolve("/student-dashboard", storage) == RedirectToLogin
    ensures Resolve("/mentor-dashboard", storage) != Render(MentorDashboardPage) ==> Resolve("/mentor-dashboard", storage) == RedirectToLogin
  {
    DashboardRouteKeys();
  }

  /** One stored session opens at most one of the dashboards. */
  lemma AtMostOneDashboard(storage: map<string, string>)
    ensures !(Resolve("/student-dashboard", storage).Render? && Resolve("/mentor-dashboard", storage).Render?)
  {
    DashboardRouteKeys();
  }

  /** The home, login and signup pages do not look at storage. */
  lemma PublicRoutesUnguarded(path: string, s1: map<string, string>, s2: map<string, string>)
    requires path in ["/", "/home", "/login", "/signup"]
    ensures Resolve(path, s1) == Resolve(path, s2) && Resolve(path, s1).Render?
  {
    PublicRouteKeys();
    assert RouteKey(path) == path;
  }

  /**
   * After a successful login the guard admits the dashboard the login page
   * goes to, exactly when the role is one of the two roles and the stored
   * token is not empty (a missing token is stored as "undefined", which
   * the guard accepts).
   */
  lemma LoginOpensItsDashboard(storage: map<string, string>, token: Option<string>, userType: string)
    ensures var after := SessionAfterLogin(storage, token, userType);
      Resolve(RedirectTarget(userType), after).Render? <==>
        StoredToken(token) != "" && (userType == "student" || userType == "mentor")
    ensures var after := SessionAfterLogin(storage, token, userType);
      userType == "student" && StoredToken(token) != "" ==>
        Resolve(RedirectTarget(userType), after) == Render(StudentDashboardPage)
    ensures var after := SessionAfterLogin(storage, token, userType);
      userType == "mentor" && StoredToken(token) != "" ==>
        Resolve(RedirectTarget(userType), after) == Render(MentorDashboardPage)
  {
    var after := SessionAfterLogin(storage, token, userType);
    DashboardRouteKeys();
    assert GetItem(after, "token") == Some(StoredToken(token));
    assert GetItem(after, "role") == Some(userType);
  }
}
