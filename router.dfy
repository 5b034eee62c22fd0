/** The frontend's route table and the navigation guard that runs before every
    route change. */
module Router {
  import opened Wrappers
  import opened PathText

  datatype RouteName = Onboarding | Login | Signup | Home

  /** A route record: its path, its name and its `meta.requiresAuth` flag
      (absent counts as false). */
  datatype RouteRecord = RouteRecord(path: string, name: RouteName, requiresAuth: bool)

  /** The four routes, in declaration order. */
  const Routes: seq<RouteRecord> := [
    RouteRecord("/", Onboarding, false),
    RouteRecord("/login", Login, false),
    RouteRecord("/signup", Signup, false),
    RouteRecord("/home", Home, true)
  ]

  /** The route a navigation is heading to, as the guard sees it: the matched
      record's name, or none for a path no record matches (whose `meta` is
      empty). */
  datatype Target = Target(name: Option<RouteName>, requiresAuth: bool)

  /** The guard's answer: `next({ name })` or plain `next()`. */
  datatype Decision = RedirectTo(route: RouteName) | Proceed

  /** vue-router's matcher for a static path under `createRouter`'s defaults
      (`sensitive` and `strict` both false): the path equals the record's path
      up to ASCII case, optionally followed by one '/'. */
  predicate PathMatches(pattern: string, path: string) {
    Lower(path) == Lower(pattern) || Lower(path) == Lower(pattern) + "/"
  }

  /** The first record whose path matches. */
  function Lookup(records: seq<RouteRecord>, path: string): (r: Option<RouteRecord>)
    ensures r.None? <==> forall i :: 0 <= i < |records| ==> !PathMatches(records[i].path, path)
    ensures r.Some? ==>
      exists i :: 0 <= i < |records| && records[i] == r.value && PathMatches(records[i].path, path)
        && forall j :: 0 <= j < i ==> !PathMatches(records[j].path, path)
  {
    if |records| == 0 then None
    else if PathMatches(records[0].path, path) then Some(records[0])
    else
      var r := Lookup(records[1..], path);
      if r.Some? then
        var i :| 0 <= i < |records[1..]| && records[1..][i] == r.value && PathMatches(records[1..][i].path, path)
          && forall j :: 0 <= j < i ==> !PathMatches(records[1..][j].path, path);
        assert records[i + 1] == r.value;
        assert forall j :: 0 <= j < i + 1 ==> !PathMatches(records[j].path, path) by {
          forall j | 0 <= j < i + 1 ensures !PathMatches(records[j].path, path) {
            if j > 0 {
              assert records[j] == records[1..][j - 1];
            }
          }
        }
        r
      else
        r
  }

  /** Matching a path against the table: the matched record's name and flag,
      or no name and no flag when no record matches. */
  function Resolve(path: string): (t: Target)
    ensures t.name.None? <==> forall i :: 0 <= i < |Routes| ==> !PathMatches(Routes[i].path, path)
    ensures t.name.None? ==> !t.requiresAuth
    ensures t.name.Some? ==>
      exists i :: 0 <= i < |Routes| && PathMatches(Routes[i].path, path)
        && Routes[i].name == t.name.value && Routes[i].requiresAuth == t.requiresAuth
  {
    match Lookup(Routes, path)
    case None => Target(None, false)
    case Some(rec) => Target(Some(rec.name), rec.requiresAuth)
  }

  /** The table's paths are already lower case. */
  lemma RoutePathsLowercase(i: int)
    requires 0 <= i < |Routes|
    ensures Lower(Routes[i].path) == Routes[i].path
  {
    LowerKeepsLowercase(Routes[i].path);
  }

  /** Which record a lowered path can match, read off its length and its
      second character. */
  function RecordIndexOf(low: string): nat {
    if |low| <= 2 then 0 else if low[1] == 'l' then 1 else if low[1] == 's' then 2 else 3
  }

  /** A lowered path equal to record `i`'s path, possibly followed by one '/',
      is classified as `i`. */
  lemma LoweredClassified(low: string, i: int)
    requires 0 <= i < |Routes| && (low == Routes[i].path || low == Routes[i].path + "/")
    ensures RecordIndexOf(low) == i
  {
    if i == 0 {
      assert |low| <= 2;
    } else if i == 1 {
      assert |low| > 2 && low[1] == 'l';
    } else if i == 2 {
      assert |low| > 2 && low[1] == 's';
    } else {
      assert |low| > 2 && low[1] == 'h';
    }
  }

  /** A path that matches record `i` is classified as `i`. */
  lemma MatchClassified(path: string, i: int)
    requires 0 <= i < |Routes| && PathMatches(Routes[i].path, path)
    ensures RecordIndexOf(Lower(path)) == i
  {
    RoutePathsLowercase(i);
    LoweredClassified(Lower(path), i);
  }

  /** No path matches two records, so the declaration order (and vue-router's
      ranking of records) never decides a match. */
  lemma MatchIsUnique(path: string, i: int, j: int)
    requires 0 <= i < |Routes| && 0 <= j < |Routes|
    requires PathMatches(Routes[i].path, path) && PathMatches(Routes[j].path, path)
    ensures i == j
  {
    MatchClassified(path, i);
    MatchClassified(path, j);
  }

  /** Navigating by name, as the guard's redirects do. */
  function Named(n: RouteName): (t: Target)
    ensures t.name == Some(n)
    ensures exists i :: 0 <= i < |Routes| && Routes[i].name == n && Routes[i].requiresAuth == t.requiresAuth
  {
    var rec := match n
      case Onboarding => Routes[0]
      case Login => Routes[1]
      case Signup => Routes[2]
      case Home => Routes[3];
    Target(Some(n), rec.requiresAuth)
  }

  /** `router.beforeEach`: a protected route without a token goes to `login`,
      `login` or `signup` with a token goes to `home`, anything else proceeds. */
  function Guard(to: Target, isAuthenticated: bool): (d: Decision)
    ensures to.requiresAuth && !isAuthenticated ==> d == RedirectTo(Login)
    ensures (to.name == Some(Login) || to.name == Some(Signup)) && isAuthenticated ==> d == RedirectTo(Home)
    ensures d == Proceed <==>
      (!to.requiresAuth || isAuthenticated) && !((to.name == Some(Login) || to.name == Some(Signup)) && isAuthenticated)
    ensures d.RedirectTo? ==> d.route in {Login, Home}
  {
    if to.requiresAuth && !isAuthenticated then RedirectTo(Login)
    else if (to.name == Some(Login) || to.name == Some(Signup)) && isAuthenticated then RedirectTo(Home)
    else Proceed
  }

  /** Where a navigation ends up after one guard decision. */
  function Destination(to: Target, isAuthenticated: bool): Option<RouteName> {
    match Guard(to, isAuthenticated)
    case RedirectTo(n) => Some(n)
    case Proceed => to.name
  }

  /** `home` is the only route that needs a token. */
  lemma OnlyHomeRequiresAuth(i: int)
    requires 0 <= i < |Routes|
    ensures Routes[i].requiresAuth <==> Routes[i].name == Home
  {
  }

  /** Navigating by a record's name yields that record's name and flag. */
  lemma NamedRecord(i: int)
    requires 0 <= i < |Routes|
    ensures Named(Routes[i].name) == Target(Some(Routes[i].name), Routes[i].requiresAuth)
  {
    if i == 0 {
      assert Routes[0].name == Onboarding;
    } else if i == 1 {
      assert Routes[1].name == Login;
    } else if i == 2 {
      assert Routes[2].name == Signup;
    } else {
      assert Routes[3].name == Home;
    }
  }

  /** Paths and names agree: every path in the table resolves to its own
      record, whose name navigation by name finds again. */
  lemma ResolveNamed(i: int)
    requires 0 <= i < |Routes|
    ensures Resolve(Routes[i].path) == Named(Routes[i].name)
  {
    assert PathMatches(Routes[i].path, Routes[i].path);
    ResolveAt(Routes[i].path, i);
  }

  /** Matching ignores ASCII case: `/HOME` reaches `home`, and without a token
      it is sent to `login`. */
  lemma HomeAnyCase()
    ensures Resolve("/HOME") == Named(Home)
    ensures Guard(Resolve("/HOME"), false) == RedirectTo(Login)
  {
    assert Routes[3].path == "/home";
    RoutePathsLowercase(3);
    assert Lower("/HOME") == "/home" by {
      var up := Lower("/HOME");
      assert up[0] == '/' && up[1] == 'h' && up[2] == 'o' && up[3] == 'm' && up[4] == 'e';
    }
    ResolveAt("/HOME", 3);
  }

  /** Matching ignores one trailing '/': `/home/` reaches `home`, and without a
      token it is sent to `login`. */
  lemma HomeTrailingSlash()
    ensures Resolve("/home/") == Named(Home)
    ensures Guard(Resolve("/home/"), false) == RedirectTo(Login)
  {
    assert Routes[3].path == "/home";
    RoutePathsLowercase(3);
    assert Lower("/home/") == "/home" + "/" by {
      LowerKeepsLowercase("/home/");
    }
    ResolveAt("/home/", 3);
  }

  /** A path matching record `i` resolves as navigating by that record's name. */
  lemma ResolveAt(path: string, i: int)
    requires 0 <= i < |Routes| && PathMatches(Routes[i].path, path)
    ensures Resolve(path) == Named(Routes[i].name)
  {
    var t := Resolve(path);
    var k :| 0 <= k < |Routes| && PathMatches(Routes[k].path, path)
      && Routes[k].name == t.name.value && Routes[k].requiresAuth == t.requiresAuth;
    MatchIsUnique(path, i, k);
    assert t == Target(Some(Routes[i].name), Routes[i].requiresAuth);
    NamedRecord(i);
  }

  /** Without a token, `onboarding`, `login` and `signup` are reached directly. */
  lemma UnauthenticatedReachesPublic(n: RouteName)
    requires n != Home
    ensures Guard(Named(n), false) == Proceed
  {
  }

  /** Without a token no navigation, by name or by any path, lands on `home`. */
  lemma UnauthenticatedNeverHome(to: Target)
    requires to.name == Some(Home) ==> to.requiresAuth
    ensures Destination(to, false) != Some(Home)
  {
  }

  /** Without a token, no path typed or followed lands on `home`. */
  lemma NoPathReachesHomeUnauthenticated(path: string)
    ensures Destination(Resolve(path), false) != Some(Home)
  {
    var t := Resolve(path);
    if t.name == Some(Home) {
      var k :| 0 <= k < |Routes| && PathMatches(Routes[k].path, path)
        && Routes[k].name == Home && Routes[k].requiresAuth == t.requiresAuth;
      OnlyHomeRequiresAuth(k);
    }
    UnauthenticatedNeverHome(t);
  }

  /** With a token, `login` and `signup` send the user home, and `home` and
      `onboarding` are reached directly. */
  lemma AuthenticatedDestinations(n: RouteName)
    ensures Destination(Named(n), true) == if n in {Login, Signup} then Some(Home) else Some(n)
  {
  }

  /** A redirect target is never redirected again under the same token state. */
  lemma RedirectIsStable(to: Target, isAuthenticated: bool)
    ensures Guard(to, isAuthenticated).RedirectTo? ==>
      Guard(Named(Guard(to, isAuthenticated).route), isAuthenticated) == Proceed
  {
  }

  /** A path no record matches carries no `requiresAuth` and, not being named
      `login` or `signup`, always proceeds. */
  lemma UnknownPathProceeds(path: string, isAuthenticated: bool)
    requires forall i :: 0 <= i < |Routes| ==> !PathMatches(Routes[i].path, path)
    ensures Guard(Resolve(path), isAuthenticated) == Proceed
  {
  }
}
