/** The navigation guard and the route table it reads. The guard is a pure
    decision on the target's `requiresAuth` flag, the target path and whether
    the session is authenticated. */
module Router {
  import opened Outcomes
  import AuthStore

  const LoginPath: string := "/login"
  const ProductsPath: string := "/products"

  // ---------------------------------------------------------------------------
  // The guard
  // ---------------------------------------------------------------------------

  /** What the guard passes to `next`: nothing (go ahead) or a path. */
  datatype Decision = Allow | Redirect(target: string)

  /** The `beforeEach` guard. The login redirect is checked first, so it wins
      even when the target itself is the login page. */
  function Guard(requiresAuth: bool, path: string, isAuthenticated: bool): (d: Decision)
    ensures d == Allow || d == Redirect(LoginPath) || d == Redirect(ProductsPath)
    ensures d == Allow <==> (requiresAuth ==> isAuthenticated) && !(path == LoginPath && isAuthenticated)
    ensures d == Redirect(LoginPath) <==> requiresAuth && !isAuthenticated
  {
    if requiresAuth && !isAuthenticated then
      Redirect(LoginPath)
    else if path == LoginPath && isAuthenticated then
      Redirect(ProductsPath)
    else
      Allow
  }

  // ---------------------------------------------------------------------------
  // The route table
  // ---------------------------------------------------------------------------

  /** One piece of a route pattern: fixed text, or a `:name` parameter. */
  datatype PatternSegment = Static(text: string) | Param(name: string)

  /** One entry of the route table, its path pattern split at the slashes;
      a route without `meta.requiresAuth` has `requiresAuth == false`. */
  datatype RouteRecord = RouteRecord(pattern: seq<PatternSegment>, name: Option<string>, requiresAuth: bool, redirect: Option<string>)

  const Routes: seq<RouteRecord> := [
    RouteRecord([Static("login")], Some("login"), false, None),
    RouteRecord([Static("products")], Some("products"), true, None),
    RouteRecord([Static("products"), Static("new")], Some("add-product"), true, None),
    RouteRecord([Static("products"), Param("id")], Some("view-product"), true, None),
    RouteRecord([Static("products"), Param("id"), Static("edit")], Some("edit-product"), true, None),
    RouteRecord([], None, false, Some("/login"))
  ]

  /** The pattern as written in the table, such as "/products/:id". */
  function PatternText(pattern: seq<PatternSegment>): string
  {
    if |pattern| == 0 then "/" else PatternTail(pattern)
  }

  function PatternTail(pattern: seq<PatternSegment>): string
  {
    if |pattern| == 0 then ""
    else
      var piece := match pattern[0] case Static(t) => t case Param(n) => ":" + n;
      "/" + piece + PatternTail(pattern[1..])
  }

  /** The pieces of a path between its slashes. */
  function Segments(path: string): (r: seq<string>)
    ensures |r| >= 1
  {
    if |path| == 0 then [""]
    else
      var rest := Segments(path[1..]);
      if path[0] == '/' then [""] + rest
      else [[path[0]] + rest[0]] + rest[1..]
  }

  /** Glue segments back together with slashes. */
  function Join(segments: seq<string>): string
    requires |segments| >= 1
  {
    if |segments| == 1 then segments[0] else segments[0] + "/" + Join(segments[1..])
  }

  /** Splitting a path loses nothing: joining the segments gives it back. */
  lemma {:induction false} JoinSegments(path: string)
    ensures Join(Segments(path)) == path
  {
    if |path| != 0 {
      var rest := Segments(path[1..]);
      JoinSegments(path[1..]);
      if path[0] == '/' {
        assert ([""] + rest)[1..] == rest;
        assert path == [path[0]] + path[1..];
      } else {
        JoinPrepend(path[0], rest);
        assert path == [path[0]] + path[1..];
      }
    }
  }

  /** Prepending a character to the first segment prepends it to the path. */
  lemma {:induction false} JoinPrepend(c: char, segments: seq<string>)
    requires |segments| >= 1
    ensures Join([[c] + segments[0]] + segments[1..]) == [c] + Join(segments)
  {
    var t := [[c] + segments[0]] + segments[1..];
    if |segments| > 1 {
      assert t[1..] == segments[1..];
    }
  }

  /** A string without slashes is a single segment. */
  lemma {:induction false} SegmentsOfSlashFree(s: string)
    requires '/' !in s
    ensures Segments(s) == [s]
  {
    if |s| != 0 {
      SegmentsOfSlashFree(s[1..]);
      assert s == [s[0]] + s[1..];
    }
  }

  /** A slash-free prefix followed by a slash is one segment of its own. */
  lemma {:induction false} SegmentsOfPrefix(x: string, y: string)
    requires '/' !in x
    ensures Segments(x + "/" + y) == [x] + Segments(y)
  {
    if |x| == 0 {
      assert (x + "/" + y)[1..] == y;
    } else {
      assert (x + "/" + y)[1..] == x[1..] + "/" + y;
      SegmentsOfPrefix(x[1..], y);
      assert [x[0]] + x[1..] == x;
    }
  }

  /** Splitting undoes joining slash-free segments. */
  lemma {:induction false} SegmentsJoin(segments: seq<string>)
    requires |segments| >= 1
    requires forall i :: 0 <= i < |segments| ==> '/' !in segments[i]
    ensures Segments(Join(segments)) == segments
  {
    if |segments| == 1 {
      SegmentsOfSlashFree(segments[0]);
    } else {
      SegmentsJoin(segments[1..]);
      SegmentsOfPrefix(segments[0], Join(segments[1..]));
    }
  }

  /** The segments a path is matched on: those after the leading slash, a
      single trailing slash ignored. */
  function PathSegments(path: string): seq<string>
  {
    var all := Segments(path);
    var afterLead := if all[0] == "" then all[1..] else all;
    if |afterLead| > 0 && afterLead[|afterLead| - 1] == "" then afterLead[..|afterLead| - 1] else afterLead
  }

  /** A parameter matches any non-empty segment, fixed text only itself. */
  predicate SegmentMatches(p: PatternSegment, segment: string)
  {
    match p
    case Static(text) => segment == text
    case Param(_) => |segment| > 0
  }

  /** A route pattern matches the segments of a path one by one. */
  predicate Matches(pattern: seq<PatternSegment>, segments: seq<string>)
  {
    |pattern| == |segments| && forall i :: 0 <= i < |segments| ==> SegmentMatches(pattern[i], segments[i])
  }

  /** The first record of `routes` whose pattern matches the segments. */
  function FirstMatch(routes: seq<RouteRecord>, segments: seq<string>): (r: Option<RouteRecord>)
    ensures r.Some? ==> r.value in routes && Matches(r.value.pattern, segments)
    ensures r.Some? ==>
              exists i :: 0 <= i < |routes| && routes[i] == r.value &&
                (forall j :: 0 <= j < i ==> !Matches(routes[j].pattern, segments))
    ensures r.None? <==> forall i :: 0 <= i < |routes| ==> !Matches(routes[i].pattern, segments)
  {
    if |routes| == 0 then None
    else if Matches(routes[0].pattern, segments) then Some(routes[0])
    else
      var r := FirstMatch(routes[1..], segments);
      if r.Some? then
        var i :| 0 <= i < |routes[1..]| && routes[1..][i] == r.value &&
                 forall j :: 0 <= j < i ==> !Matches(routes[1..][j].pattern, segments);
        assert routes[i + 1] == r.value;
        r
      else r
  }

  /** The record vue-router picks for a path. */
  function Lookup(path: string): (r: Option<RouteRecord>)
    ensures r.Some? ==> r.value in Routes && Matches(r.value.pattern, PathSegments(path))
  {
    FirstMatch(Routes, PathSegments(path))
  }

  /** What the guard sees as `to`: the path after a record's redirect has
      been applied, and the `requiresAuth` flag of the record it ends at.
      An unmatched path carries no flag. */
  datatype Target = Target(path: string, requiresAuth: bool)

  function TargetOf(path: string): (r: Target)
    ensures r.requiresAuth ==> Lookup(path).Some?
    ensures r.path == path || (Lookup(path).Some? && Lookup(path).value.redirect == Some(r.path))
    ensures Lookup(path).None? ==> r == Target(path, false)
    ensures Lookup(path).Some? && Lookup(path).value.redirect.None? ==>
              r == Target(path, Lookup(path).value.requiresAuth)
    ensures Lookup(path).Some? && Lookup(path).value.redirect.Some? ==>
              && r.path == Lookup(path).value.redirect.value
              && (r.requiresAuth <==> Lookup(r.path).Some? && Lookup(r.path).value.requiresAuth)
  {
    match Lookup(path)
    case None => Target(path, false)
    case Some(record) =>
      match record.redirect
      case None => Target(path, record.requiresAuth)
      case Some(to) =>
        match Lookup(to)
        case None => Target(to, false)
        case Some(next) => Target(to, next.requiresAuth)
  }

  /** The guard's decision for a navigation to `path`: the login page for a
      protected target without a session, and never a redirect to the page
      the user asked for when that page is allowed. */
  function Navigate(path: string, isAuthenticated: bool): (d: Decision)
    ensures d == Redirect(LoginPath) <==> TargetOf(path).requiresAuth && !isAuthenticated
    ensures d == Allow <==>
              (TargetOf(path).requiresAuth ==> isAuthenticated) && !(TargetOf(path).path == LoginPath && isAuthenticated)
  {
    var to := TargetOf(path);
    Guard(to.requiresAuth, to.path, isAuthenticated)
  }

  // ---------------------------------------------------------------------------
  // Properties of the table together with the guard
  // ---------------------------------------------------------------------------

  /** The table's patterns are the paths the routes are declared with; the
      five named routes have no redirect, and the unnamed root route
      redirects to the login page without an auth flag. */
  lemma TablePatterns()
    ensures |Routes| == 6
    ensures forall k :: 0 <= k < 5 ==> Routes[k].name.Some? && Routes[k].redirect.None?
    ensures Routes[5].name.None? && !Routes[5].requiresAuth && Routes[5].redirect == Some(LoginPath)
    ensures PatternText(Routes[0].pattern) == "/login"
    ensures PatternText(Routes[1].pattern) == "/products"
    ensures PatternText(Routes[2].pattern) == "/products/new"
    ensures PatternText(Routes[3].pattern) == "/products/:id"
    ensures PatternText(Routes[4].pattern) == "/products/:id/edit"
    ensures PatternText(Routes[5].pattern) == "/"
  {
  }

  /** A path of one non-empty, slash-free segment after the leading slash
      is matched on that segment alone. */
  lemma PathSegmentsOfSingle(segment: string)
    requires segment != "" && '/' !in segment
    ensures PathSegments("/" + segment) == [segment]
  {
    SegmentsOfPrefix("", segment);
    SegmentsOfSlashFree(segment);
    assert "" + "/" + segment == "/" + segment;
  }

  /** The login path is matched on the one segment "login". */
  lemma LoginPathSegments()
    ensures PathSegments(LoginPath) == ["login"]
  {
    PathSegmentsOfSingle("login");
    assert "/" + "login" == LoginPath;
  }

  /** The product-list path is matched on the one segment "products". */
  lemma ProductsPathSegments()
    ensures PathSegments(ProductsPath) == ["products"]
  {
    PathSegmentsOfSingle("products");
    assert "/" + "products" == ProductsPath;
  }

  /** A path whose only segment is "login" reaches the login record. */
  lemma TargetOfLoginSegments(path: string)
    requires PathSegments(path) == ["login"]
    ensures TargetOf(path) == Target(path, false)
  {
    assert Matches(Routes[0].pattern, ["login"]);
  }

  /** A path whose only segment is "products" reaches the product list. */
  lemma TargetOfProductsSegments(path: string)
    requires PathSegments(path) == ["products"]
    ensures TargetOf(path) == Target(path, true)
  {
    assert !Matches(Routes[0].pattern, ["products"]);
    assert Matches(Routes[1].pattern, ["products"]);
  }

  /** The login page has no `requiresAuth` flag, the product list has it. */
  lemma RedirectTargetsResolve()
    ensures TargetOf(LoginPath) == Target(LoginPath, false)
    ensures TargetOf(ProductsPath) == Target(ProductsPath, true)
  {
    LoginPathSegments();
    TargetOfLoginSegments(LoginPath);
    ProductsPathSegments();
    TargetOfProductsSegments(ProductsPath);
  }

  /** Every route under /products is protected, and the login route is
      not. */
  lemma ProductRoutesProtected()
    ensures forall r :: r in Routes && |r.pattern| > 0 && r.pattern[0] == Static("products") ==> r.requiresAuth
    ensures forall r :: r in Routes && r.pattern == [Static("login")] ==> !r.requiresAuth
  {
  }

  /** No redirect loop: wherever the guard redirects, the guard lets the
      same user through at the redirect target. */
  lemma {:induction false} NoRedirectLoop(path: string, isAuthenticated: bool)
    ensures var d := Navigate(path, isAuthenticated);
      d.Redirect? ==> Navigate(d.target, isAuthenticated) == Allow
  {
    RedirectTargetsResolve();
  }

  /** A path with no segments reaches the root record, which redirects to
      the login page. */
  lemma TargetOfRootSegments(path: string)
    requires PathSegments(path) == []
    ensures TargetOf(path) == Target(LoginPath, false)
  {
    var segs: seq<string> := [];
    assert forall k :: 0 <= k < 5 ==> !Matches(Routes[k].pattern, segs);
    assert Matches(Routes[5].pattern, segs);
    assert Lookup(path) == Some(Routes[5]);
    LoginPathSegments();
    TargetOfLoginSegments(LoginPath);
  }

  /** The root path is sent on to the login page, which a user without a
      session may open. */
  lemma RootLeadsToLogin()
    ensures TargetOf("/") == Target(LoginPath, false)
    ensures Navigate("/", false) == Allow && Navigate(LoginPath, false) == Allow
  {
    assert Join(["", ""]) == "/";
    SegmentsJoin(["", ""]);
    TargetOfRootSegments("/");
    RedirectTargetsResolve();
  }

  /** The guard scenarios of the product list and login pages. */
  lemma GuardScenarios()
    ensures Navigate(ProductsPath, false) == Redirect(LoginPath)
    ensures Navigate(LoginPath, true) == Redirect(ProductsPath)
    ensures Navigate(ProductsPath, true) == Allow
  {
    RedirectTargetsResolve();
  }

  /** A product page (`/products/<id>`) is protected: without a session the
      guard sends the user to the login page. */
  lemma ProductPageNeedsSession(id: string)
    requires |id| > 0 && '/' !in id && id != "new"
    ensures Lookup(ProductsPath + "/" + id) == Some(Routes[3])
    ensures TargetOf(ProductsPath + "/" + id) == Target(ProductsPath + "/" + id, true)
    ensures Navigate(ProductsPath + "/" + id, false) == Redirect(LoginPath)
  {
    var path := ProductsPath + "/" + id;
    var segs := ["", "products", id];
    assert segs[1..] == ["products", id];
    assert segs[1..][1..] == [id];
    assert Join(segs[1..][1..]) == id;
    assert Join(segs[1..]) == "products" + "/" + id;
    assert Join(segs) == "" + "/" + ("products" + "/" + id);
    assert path == "" + "/" + ("products" + "/" + id);
    SegmentsJoin(segs);
    assert PathSegments(path) == ["products", id];
    assert !Matches(Routes[2].pattern, ["products", id]);
    assert Lookup(path) == Some(Routes[3]);
  }

  /** A user who has just logged out is sent to the login page from every
      protected target and let through to every other one. */
  lemma LogoutLocksProtectedRoutes(st: AuthStore.Storage, path: string)
    ensures Navigate(path, AuthStore.Authenticated(AuthStore.LogoutStep(st).session))
            == if TargetOf(path).requiresAuth then Redirect(LoginPath) else Allow
  {
  }
}
