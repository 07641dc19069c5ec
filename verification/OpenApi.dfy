/**
 * The published document: annotation with session requirements and the coverage check
 * (scripts/lib/openapi-document.ts), over the routes of module Routes.
 */
module OpenApi {
  import opened Wrappers
  import opened Routes

  const HTTP_METHODS: seq<string> := ["get", "put", "post", "delete", "options", "head", "patch", "trace"]

  /** `None` is an operation without a `security` key; `Some([])` is an explicit empty one. */
  datatype Operation = Operation(security: Option<seq<string>>, body: int)

  type PathItem = map<string, Operation>
  type Paths = map<string, PathItem>

  const SESSION_SCHEME_NAME: string := "sessionCookie"

  // ---- Paths and keys ----------------------------------------------------------

  /** The length of the longest prefix without a slash. */
  function Segment(s: string): (n: nat)
    ensures n <= |s| && '/' !in s[..n] && (n < |s| ==> s[n] == '/')
  {
    if s == "" || s[0] == '/' then 0 else 1 + Segment(s[1..])
  }

  /** `url.replace(/:([^/]+)/g, '{$1}')` */
  function ToOpenApiPath(url: string): string
    decreases |url|
  {
    if url == "" then ""
    else if url[0] == ':' && Segment(url[1..]) > 0 then
      var n := Segment(url[1..]);
      "{" + url[1..n + 1] + "}" + ToOpenApiPath(url[n + 1..])
    else [url[0]] + ToOpenApiPath(url[1..])
  }

  /** The way back: a brace pair opens and closes a parameter. */
  function FromOpenApiPath(path: string): string {
    if path == "" then ""
    else (if path[0] == '{' then ":" else if path[0] == '}' then "" else [path[0]]) + FromOpenApiPath(path[1..])
  }

  predicate NoBraces(s: string) {
    '{' !in s && '}' !in s
  }

  lemma {:induction false} FromConcat(a: string, b: string)
    ensures FromOpenApiPath(a + b) == FromOpenApiPath(a) + FromOpenApiPath(b)
  {
    if a == "" {
      assert a + b == b;
    } else {
      assert (a + b)[1..] == a[1..] + b;
      FromConcat(a[1..], b);
    }
  }

  lemma {:induction false} FromPlain(s: string)
    requires NoBraces(s)
    ensures FromOpenApiPath(s) == s
  {
    if s != "" {
      FromPlain(s[1..]);
    }
  }

  /** One converted parameter reads back, whatever follows. */
  lemma ParameterReadsBack(name: string, path: string)
    requires NoBraces(name)
    ensures FromOpenApiPath("{" + name + "}" + path) == ":" + name + FromOpenApiPath(path)
  {
    hide FromOpenApiPath, NoBraces;
    FromPlain(name);
    FromConcat("{" + name + "}", path);
    FromConcat("{" + name, "}");
    FromConcat("{", name);
    BracesRead();
  }

  lemma CharReadsBack(c: char, path: string)
    requires c != '{' && c != '}'
    ensures FromOpenApiPath([c] + path) == [c] + FromOpenApiPath(path)
  {
    assert ([c] + path)[1..] == path;
  }

  lemma NoBracesSplit(s: string, i: nat, j: nat)
    requires NoBraces(s) && i <= j <= |s|
    ensures NoBraces(s[i..j]) && NoBraces(s[j..])
  {}

  lemma ParameterConverts(url: string, n: nat)
    requires url != "" && url[0] == ':' && n == Segment(url[1..]) > 0
    ensures ToOpenApiPath(url) == "{" + url[1..n + 1] + "}" + ToOpenApiPath(url[n + 1..])
    ensures url == ":" + url[1..n + 1] + url[n + 1..]
  {
    assert ToOpenApiPath(url) == "{" + url[1..n + 1] + "}" + ToOpenApiPath(url[n + 1..]);
    hide *;
    assert url == ":" + url[1..n + 1] + url[n + 1..];
  }

  lemma CharConverts(url: string)
    requires url != "" && !(url[0] == ':' && Segment(url[1..]) > 0)
    ensures ToOpenApiPath(url) == [url[0]] + ToOpenApiPath(url[1..])
  {
  }

  /** Nothing is lost in the conversion: URLs without braces convert back, so no two collide. */
  lemma {:induction false} PathReadsBack(url: string)
    requires NoBraces(url)
    ensures FromOpenApiPath(ToOpenApiPath(url)) == url
    decreases |url|
  {
    if url != "" {
      if url[0] == ':' && Segment(url[1..]) > 0 {
        hide *;
        var n := Segment(url[1..]);
        ParameterConverts(url, n);
        NoBracesSplit(url, 1, n + 1);
        PathReadsBack(url[n + 1..]);
        ParameterReadsBack(url[1..n + 1], ToOpenApiPath(url[n + 1..]));
      } else {
        CharConverts(url);
        NoBracesSplit(url, 0, 1);
        assert url[0] in url;
        hide ToOpenApiPath, FromOpenApiPath;
        PathReadsBack(url[1..]);
        CharReadsBack(url[0], ToOpenApiPath(url[1..]));
      }
    }
  }

  lemma BracesRead()
    ensures FromOpenApiPath("{") == ":" && FromOpenApiPath("}") == ""
  {
    assert "{"[1..] == "" && "}"[1..] == "";
  }

  function LowerChar(c: char): char {
    if 'A' <= c <= 'Z' then c + 32 as char else c
  }

  function Lower(s: string): (r: string)
    ensures |r| == |s|
  {
    seq(|s|, i requires 0 <= i < |s| => LowerChar(s[i]))
  }

  function OperationKey(method_: string, path: string): string {
    Lower(method_) + " " + path
  }

  predicate IsToken(s: string) {
    forall i :: 0 <= i < |s| ==> s[i] != ' '
  }

  lemma LowerKeepsTokens(s: string)
    ensures IsToken(s) ==> IsToken(Lower(s))
  {}

  lemma SplitAtSpace(a: string, p: string, b: string, q: string)
    requires IsToken(a) && IsToken(b) && a + " " + p == b + " " + q
    ensures a == b && p == q
  {
    var l, r := a + " " + p, b + " " + q;
    assert l[|a|] == ' ' && r[|b|] == ' ';
    assert forall i :: 0 <= i < |a| ==> l[i] == a[i];
    assert forall i :: 0 <= i < |b| ==> r[i] == b[i];
    assert |a| == |b|;
    assert l[..|a|] == a && r[..|b|] == b;
    assert l[|a| + 1..] == p && r[|b| + 1..] == q;
  }

  /** A key determines its method, up to case, and its path. */
  lemma KeyIsInjective(m: string, p: string, n: string, q: string)
    requires IsToken(m) && IsToken(n)
    ensures OperationKey(m, p) == OperationKey(n, q) <==> Lower(m) == Lower(n) && p == q
  {
    LowerKeepsTokens(m);
    LowerKeepsTokens(n);
    hide Lower;
    if OperationKey(m, p) == OperationKey(n, q) {
      SplitAtSpace(Lower(m), p, Lower(n), q);
    }
  }

  // ---- Keys of routes and of the document -----------------------------------------

  function RouteKey(route: Route, i: nat): string
    requires i < |route.methods|
  {
    OperationKey(route.methods[i], ToOpenApiPath(route.url))
  }

  predicate RouteHasKey(route: Route, key: string) {
    exists i :: 0 <= i < |route.methods| && RouteKey(route, i) == key
  }

  /** An operation the document publishes: other entries of a path item are not operations. */
  predicate Publishes(paths: Paths, path: string, m: string) {
    path in paths && m in paths[path] && m in HTTP_METHODS
  }

  ghost predicate PublishesKey(paths: Paths, key: string) {
    exists path, m :: Publishes(paths, path, m) && OperationKey(m, path) == key
  }

  /** The gating of the last route registered with a key: `Map.set` overwrites. */
  function GatedByKey(routes: seq<Route>, key: string): Option<bool> {
    if routes == [] then None
    else
      var last := routes[|routes| - 1];
      if RouteHasKey(last, key) then Some(IsSessionGated(last)) else GatedByKey(routes[..|routes| - 1], key)
  }

  function Requirement(gated: bool): Option<seq<string>> {
    Some(if gated then [SESSION_SCHEME_NAME] else [])
  }

  /** One path item with every operation's requirement written, given the gating by key. */
  function Secured(op: Operation, gated: Option<bool>): Operation {
    if gated.Some? then op.(security := Requirement(gated.value)) else op
  }

  function AnnotatedItem(path: string, item: PathItem, routes: seq<Route>, done: seq<string>): PathItem {
    map m | m in item ::
      if m in done then Secured(item[m], GatedByKey(routes, OperationKey(m, path))) else item[m]
  }

  function Annotated(paths: Paths, routes: seq<Route>): Paths {
    map path | path in paths :: AnnotatedItem(path, paths[path], routes, HTTP_METHODS)
  }

  /** Every published operation has a route behind it. */
  ghost predicate AllMatched(paths: Paths, routes: seq<Route>) {
    forall path, m :: Publishes(paths, path, m) ==> GatedByKey(routes, OperationKey(m, path)).Some?
  }

  /** Every declared, visible route is in the document under each of its methods. */
  ghost predicate AllPublished(paths: Paths, routes: seq<Route>) {
    forall route, i :: route in routes && !IsAutoHead(routes, route) && !route.hidden && 0 <= i < |route.methods| ==>
      PublishesKey(paths, RouteKey(route, i))
  }

  ghost predicate GatesOf(routes: seq<Route>, gatedByKey: map<string, bool>) {
    && (forall key :: key in gatedByKey <==> GatedByKey(routes, key).Some?)
    && (forall key :: key in gatedByKey ==> GatedByKey(routes, key) == Some(gatedByKey[key]))
  }

  method GatherGates(routes: seq<Route>) returns (gatedByKey: map<string, bool>)
    ensures GatesOf(routes, gatedByKey)
  {
    hide OperationKey, IsSessionGated, RouteKey;
    gatedByKey := map[];
    for i := 0 to |routes|
      invariant GatesOf(routes[..i], gatedByKey)
    {
      var route := routes[i];
      ghost var before := gatedByKey;
      assert routes[..i + 1][..i] == routes[..i];
      var gated := IsSessionGated(route);
      for j := 0 to |route.methods|
        invariant forall key :: key in gatedByKey <==>
                    key in before || exists k :: 0 <= k < j && RouteKey(route, k) == key
        invariant forall key :: key in gatedByKey ==>
                    gatedByKey[key] ==
                    if exists k :: 0 <= k < j && RouteKey(route, k) == key then gated else before[key]
      {
        gatedByKey := gatedByKey[RouteKey(route, j) := gated];
      }
    }
    assert routes[..|routes|] == routes;
  }

  class ApiDocument {
    var paths: Paths

    constructor (paths: Paths)
      ensures this.paths == paths
    {
      this.paths := paths;
    }

    /** `applySecurity`: the first unmatched operation it throws over, or none. */
    method ApplySecurity(routes: seq<Route>) returns (unmatched: Option<(string, string)>)
      modifies this
      ensures unmatched.None? <==> AllMatched(old(paths), routes)
      ensures unmatched.None? ==> paths == Annotated(old(paths), routes)
      ensures unmatched.Some? ==> Publishes(old(paths), unmatched.value.1, unmatched.value.0)
      ensures unmatched.Some? ==> GatedByKey(routes, OperationKey(unmatched.value.0, unmatched.value.1)).None?
    {
      hide OperationKey, GatedByKey;
      var gatedByKey := GatherGates(routes);
      ghost var before := paths;
      var todo := paths.Keys;
      while todo != {}
        invariant paths.Keys == before.Keys && todo <= before.Keys
        invariant forall path :: path in todo ==> paths[path] == before[path]
        invariant forall path :: path in before && path !in todo ==>
                    paths[path] == AnnotatedItem(path, before[path], routes, HTTP_METHODS)
        invariant forall path, m :: Publishes(before, path, m) && path !in todo ==>
                    GatedByKey(routes, OperationKey(m, path)).Some?
        decreases todo
      {
        var path :| path in todo;
        var item, bad := AnnotateItem(path, paths[path], routes, gatedByKey);
        paths := paths[path := item];
        if bad.Some? {
          return Some((bad.value, path));
        }
        todo := todo - {path};
      }
      unmatched := None;
    }
  }

  /** The inner loop over the HTTP methods of one path item. */
  method AnnotateItem(path: string, item: PathItem, routes: seq<Route>, gatedByKey: map<string, bool>)
    returns (annotated: PathItem, bad: Option<string>)
    requires GatesOf(routes, gatedByKey)
    ensures bad.Some? ==> bad.value in HTTP_METHODS && bad.value in item
                          && GatedByKey(routes, OperationKey(bad.value, path)).None?
    ensures bad.None? ==> annotated == AnnotatedItem(path, item, routes, HTTP_METHODS)
    ensures bad.None? ==> forall m :: m in item && m in HTTP_METHODS ==> GatedByKey(routes, OperationKey(m, path)).Some?
  {
    hide OperationKey, GatedByKey;
    annotated := item;
    var methods := HTTP_METHODS;
    for i := 0 to |methods|
      invariant annotated == AnnotatedItem(path, item, routes, methods[..i])
      invariant forall m :: m in item && m in methods[..i] ==> GatedByKey(routes, OperationKey(m, path)).Some?
    {
      var m := methods[i];
      assert methods[..i + 1] == methods[..i] + [m];
      if m in annotated {
        var key := OperationKey(m, path);
        if key !in gatedByKey {
          return annotated, Some(m);
        }
        annotated := annotated[m := annotated[m].(security := Requirement(gatedByKey[key]))];
      }
    }
    assert methods[..|methods|] == methods;
    bad := None;
  }

  // ---- The coverage check -----------------------------------------------------------

  method PublishedKeys(paths: Paths) returns (published: set<string>)
    ensures forall key :: key in published <==> PublishesKey(paths, key)
  {
    hide OperationKey;
    published := {};
    var todo := paths.Keys;
    while todo != {}
      invariant todo <= paths.Keys
      invariant forall key :: key in published ==> PublishesKey(paths, key)
      invariant forall path, m :: Publishes(paths, path, m) && path !in todo ==> OperationKey(m, path) in published
      decreases todo
    {
      var path :| path in todo;
      var methods := HTTP_METHODS;
      for i := 0 to |methods|
        invariant forall key :: key in published ==> PublishesKey(paths, key)
        invariant forall p, m :: Publishes(paths, p, m) && p !in todo ==> OperationKey(m, p) in published
        invariant forall m :: m in paths[path] && m in methods[..i] ==> OperationKey(m, path) in published
      {
        assert methods[..i + 1] == methods[..i] + [methods[i]];
        if methods[i] in paths[path] {
          assert Publishes(paths, path, methods[i]);
          published := published + {OperationKey(methods[i], path)};
        }
      }
      assert methods[..|methods|] == methods;
      todo := todo - {path};
    }
  }

  /** `assertEveryRoutePublished`: the (method, URL) pairs it throws over, none when it passes. */
  method AssertEveryRoutePublished(paths: Paths, routes: seq<Route>) returns (missing: seq<(string, string)>)
    ensures missing == [] <==> AllPublished(paths, routes)
    ensures forall i :: 0 <= i < |missing| ==>
              !PublishesKey(paths, OperationKey(missing[i].0, ToOpenApiPath(missing[i].1)))
  {
    hide OperationKey, PublishesKey, ToOpenApiPath, IsAutoHead;
    var published := PublishedKeys(paths);
    var declared := WithoutAutoHeadRoutes(routes);
    DeclaredMembers(routes, routes);
    missing := [];
    for i := 0 to |declared|
      invariant missing == [] <==> forall r :: 0 <= r < i ==> RoutePublished(paths, declared[r])
      invariant forall k :: 0 <= k < |missing| ==>
                  !PublishesKey(paths, OperationKey(missing[k].0, ToOpenApiPath(missing[k].1)))
    {
      var route := declared[i];
      if route.hidden {
        continue;
      }
      ghost var before := missing;
      for j := 0 to |route.methods|
        invariant missing == [] <==> before == [] && PublishedUpTo(paths, route, j)
        invariant forall k :: 0 <= k < |missing| ==>
                    !PublishesKey(paths, OperationKey(missing[k].0, ToOpenApiPath(missing[k].1)))
      {
        assert RouteKey(route, j) == OperationKey(route.methods[j], ToOpenApiPath(route.url));
        if OperationKey(route.methods[j], ToOpenApiPath(route.url)) !in published {
          missing := missing + [(route.methods[j], route.url)];
        }
      }
    }
    assert forall route :: route in declared <==> exists r :: 0 <= r < |declared| && declared[r] == route;
  }

  ghost predicate RoutePublished(paths: Paths, route: Route) {
    !route.hidden ==> PublishedUpTo(paths, route, |route.methods|)
  }

  ghost predicate PublishedUpTo(paths: Paths, route: Route, n: nat)
    requires n <= |route.methods|
  {
    forall i :: 0 <= i < n ==> PublishesKey(paths, RouteKey(route, i))
  }

  // ---- The published document ----------------------------------------------------------

  ghost predicate KeysUnique(routes: seq<Route>) {
    forall i, j, key :: HasKeyAt(routes, i, key) && HasKeyAt(routes, j, key) ==> i == j
  }

  ghost predicate HasKeyAt(routes: seq<Route>, i: int, key: string) {
    0 <= i < |routes| && RouteHasKey(routes[i], key)
  }

  lemma {:induction false} GatedByKeyIsLast(routes: seq<Route>, key: string)
    ensures GatedByKey(routes, key).Some? <==> exists i :: HasKeyAt(routes, i, key)
    ensures GatedByKey(routes, key).Some? ==>
              exists i :: HasKeyAt(routes, i, key) && GatedByKey(routes, key) == Some(IsSessionGated(routes[i]))
  {
    hide RouteHasKey, IsSessionGated;
    if routes != [] {
      var last := |routes| - 1;
      GatedByKeyIsLast(routes[..last], key);
      if !RouteHasKey(routes[last], key) && GatedByKey(routes, key).Some? {
        var i :| HasKeyAt(routes[..last], i, key)
                 && GatedByKey(routes[..last], key) == Some(IsSessionGated(routes[..last][i]));
        assert HasKeyAt(routes, i, key);
      } else if RouteHasKey(routes[last], key) {
        assert HasKeyAt(routes, last, key);
      } else {
        assert forall i :: HasKeyAt(routes, i, key) ==> HasKeyAt(routes[..last], i, key);
      }
    }
  }

  /** When the coverage check and the annotation both succeed and operation keys are unique:
      every declared, visible route is published; every published operation has exactly one
      route behind it; and its security requirement is non-empty exactly when that route is
      session-gated. */
  lemma DocumentIsFaithful(paths: Paths, routes: seq<Route>, path: string, m: string)
    requires AllPublished(paths, routes) && AllMatched(paths, routes) && KeysUnique(routes)
    requires Publishes(Annotated(paths, routes), path, m)
    ensures AllPublished(Annotated(paths, routes), routes)
    ensures exists i :: HasKeyAt(routes, i, OperationKey(m, path))
              && Annotated(paths, routes)[path][m]
                 == paths[path][m].(security := Requirement(IsSessionGated(routes[i])))
    ensures forall i :: HasKeyAt(routes, i, OperationKey(m, path)) ==>
              && Annotated(paths, routes)[path][m].security.Some?
              && (Annotated(paths, routes)[path][m].security.value != [] <==> IsSessionGated(routes[i]))
  {
    hide OperationKey, RouteHasKey, IsSessionGated;
    var key := OperationKey(m, path);
    SamePublished(paths, routes);
    assert Publishes(paths, path, m);
    GatedByKeyIsLast(routes, key);
    var i :| HasKeyAt(routes, i, key) && GatedByKey(routes, key) == Some(IsSessionGated(routes[i]));
    assert Annotated(paths, routes)[path][m] == Secured(paths[path][m], GatedByKey(routes, key));
  }

  lemma SamePublished(paths: Paths, routes: seq<Route>)
    ensures forall path, m :: Publishes(Annotated(paths, routes), path, m) <==> Publishes(paths, path, m)
    ensures AllPublished(Annotated(paths, routes), routes) <==> AllPublished(paths, routes)
  {
    hide OperationKey, GatedByKey, IsAutoHead, RouteKey;
    forall key
      ensures PublishesKey(Annotated(paths, routes), key) <==> PublishesKey(paths, key)
    {
      assert forall path, m :: Publishes(Annotated(paths, routes), path, m) <==> Publishes(paths, path, m);
    }
  }

  /** Where keys collide the annotation follows the route registered last, so it can
      understate a gated route: the exact condition is that all routes of a key agree. */
  lemma AnnotationExactWhenRoutesAgree(paths: Paths, routes: seq<Route>, path: string, m: string)
    requires AllMatched(paths, routes) && Publishes(paths, path, m)
    ensures (forall i :: HasKeyAt(routes, i, OperationKey(m, path)) ==>
               Annotated(paths, routes)[path][m].security == Requirement(IsSessionGated(routes[i])))
            <==>
            (forall i, j :: HasKeyAt(routes, i, OperationKey(m, path)) && HasKeyAt(routes, j, OperationKey(m, path)) ==>
               IsSessionGated(routes[i]) == IsSessionGated(routes[j]))
  {
    hide OperationKey, RouteHasKey, IsSessionGated;
    var key := OperationKey(m, path);
    GatedByKeyIsLast(routes, key);
    var last :| HasKeyAt(routes, last, key) && GatedByKey(routes, key) == Some(IsSessionGated(routes[last]));
    assert Annotated(paths, routes)[path][m] == Secured(paths[path][m], GatedByKey(routes, key));
    assert Requirement(true) != Requirement(false);
  }

  /** The operations of a path item are the eight that OpenAPI knows. */
  lemma PublishedMethods(paths: Paths, path: string, m: string)
    ensures Publishes(paths, path, m) <==>
              && path in paths && m in paths[path]
              && (m == "get" || m == "put" || m == "post" || m == "delete" || m == "options" || m == "head"
                  || m == "patch" || m == "trace")
  {
    var all := ["get", "put", "post", "delete", "options", "head", "patch", "trace"];
    assert all[0] == "get" && all[1] == "put" && all[2] == "post" && all[3] == "delete" && all[4] == "options";
    assert all[5] == "head" && all[6] == "patch" && all[7] == "trace";
    assert HTTP_METHODS == all;
  }

  /** A route missing from the document is forgiven only if it hides itself or is automatic. */
  lemma MissingRouteForgiven(route: Route)
    ensures AllPublished(map[], [route]) <==> route.hidden || route.methods == [] || IsAutoHead([route], route)
  {
    if route.methods != [] {
      assert [route][0] in [route] && !PublishesKey(map[], RouteKey(route, 0));
    }
  }

  // ---- Which routes collide -------------------------------------------------------

  ghost predicate Registers(route: Route, i: nat, m: string) {
    i < |route.methods| && IsToken(route.methods[i]) && Lower(route.methods[i]) == Lower(m)
  }

  /** Fastify refuses a second route with the same method and URL; methods hold no space. */
  ghost predicate Registrable(routes: seq<Route>) {
    && (forall r, i :: 0 <= r < |routes| && 0 <= i < |routes[r].methods| ==> IsToken(routes[r].methods[i]))
    && (forall r, q, i, j ::
          0 <= r < q < |routes| && 0 <= i < |routes[r].methods| && Registers(routes[q], j, routes[r].methods[i]) ==>
            routes[r].url != routes[q].url)
  }

  /** Routes the server accepts, with URLs free of braces, never share an operation key. */
  lemma RoutesWithoutBracesDiffer(routes: seq<Route>)
    requires Registrable(routes) && forall r :: 0 <= r < |routes| ==> NoBraces(routes[r].url)
    ensures KeysUnique(routes)
  {
    forall r, q, key | HasKeyAt(routes, r, key) && HasKeyAt(routes, q, key)
      ensures r == q
    {
      if r < q {
        TwoRoutesDiffer(routes, r, q, key);
      } else if q < r {
        TwoRoutesDiffer(routes, q, r, key);
      }
    }
  }

  lemma TwoRoutesDiffer(routes: seq<Route>, r: nat, q: nat, key: string)
    requires Registrable(routes) && r < q < |routes| && NoBraces(routes[r].url) && NoBraces(routes[q].url)
    ensures !(RouteHasKey(routes[r], key) && RouteHasKey(routes[q], key))
  {
    hide ToOpenApiPath, FromOpenApiPath, OperationKey, Lower, IsToken;
    PathReadsBack(routes[r].url);
    PathReadsBack(routes[q].url);
    forall i, j | 0 <= i < |routes[r].methods| && 0 <= j < |routes[q].methods|
      ensures RouteKey(routes[r], i) != RouteKey(routes[q], j)
    {
      KeyIsInjective(routes[r].methods[i], ToOpenApiPath(routes[r].url),
                     routes[q].methods[j], ToOpenApiPath(routes[q].url));
      assert Registers(routes[q], j, routes[q].methods[j]);
      assert Lower(routes[r].methods[i]) == Lower(routes[q].methods[j]) ==>
        Registers(routes[q], j, routes[r].methods[i]);
    }
  }

  lemma ColonPath()
    ensures ToOpenApiPath("/:a") == "/{a}"
  {
    assert Segment("a") == 1;
    assert "/:a"[1..] == ":a" && ":a"[1..] == "a" && ":a"[1..2] == "a" && ":a"[2..] == "";
    assert ToOpenApiPath(":a") == "{a}";
  }

  lemma BracePath()
    ensures ToOpenApiPath("/{a}") == "/{a}"
  {
    assert "/{a}"[1..] == "{a}" && "{a}"[1..] == "a}" && "a}"[1..] == "}" && "}"[1..] == "";
    assert ToOpenApiPath("}") == "}";
    assert ToOpenApiPath("a}") == "a}";
    assert ToOpenApiPath("{a}") == "{a}";
  }

  /** `GET /:a` behind a session, and `GET /{a}` open to all. */
  const BEHIND_SESSION: Route := Route(["GET"], "/:a", 0, [], true, false)
  const OPEN_TO_ALL: Route := Route(["GET"], "/{a}", 1, [], false, false)

  lemma BracesCollide()
    ensures RouteKey(BEHIND_SESSION, 0) == RouteKey(OPEN_TO_ALL, 0) == OperationKey("get", "/{a}")
    ensures Registrable([BEHIND_SESSION, OPEN_TO_ALL])
  {
    ColonPath();
    BracePath();
    LowerGet();
    hide ToOpenApiPath, Lower;
  }

  lemma OneOperationCovers(op: Operation)
    ensures var paths: Paths := map["/{a}" := map["get" := op]];
            && Publishes(paths, "/{a}", "get")
            && AllPublished(paths, [BEHIND_SESSION, OPEN_TO_ALL]) && AllMatched(paths, [BEHIND_SESSION, OPEN_TO_ALL])
  {
    var routes := [BEHIND_SESSION, OPEN_TO_ALL];
    var paths: Paths := map["/{a}" := map["get" := op]];
    BracesCollide();
    hide RouteKey, OperationKey, IsAutoHead, Registrable;
    assert HTTP_METHODS[0] == "get";
    assert Publishes(paths, "/{a}", "get");
    assert PublishesKey(paths, OperationKey("get", "/{a}"));
    assert RouteHasKey(OPEN_TO_ALL, OperationKey("get", "/{a}"));
    assert forall path, m :: Publishes(paths, path, m) ==> path == "/{a}" && m == "get";
  }

  /** With braces two routes the server accepts do collide: both checks pass, and the gated one
      is published as needing no session. */
  lemma BracesHideAGate(op: Operation)
    ensures
      var routes := [BEHIND_SESSION, OPEN_TO_ALL];
      var paths: Paths := map["/{a}" := map["get" := op]];
      && Registrable(routes) && AllPublished(paths, routes) && AllMatched(paths, routes)
      && HasKeyAt(routes, 0, OperationKey("get", "/{a}")) && IsSessionGated(routes[0])
      && Annotated(paths, routes)["/{a}"]["get"].security == Some([])
  {
    var routes := [BEHIND_SESSION, OPEN_TO_ALL];
    var paths: Paths := map["/{a}" := map["get" := op]];
    BracesCollide();
    OneOperationCovers(op);
    hide RouteKey, OperationKey, Registrable, AllPublished, AllMatched;
    assert RouteHasKey(BEHIND_SESSION, OperationKey("get", "/{a}"));
    assert RouteHasKey(OPEN_TO_ALL, OperationKey("get", "/{a}"));
    assert GatedByKey(routes, OperationKey("get", "/{a}")) == Some(false);
  }

  lemma LowerGet()
    ensures Lower("GET") == Lower("get") == "get" && IsToken("GET")
  {
    assert "GET"[1..] == "ET" && "ET"[1..] == "T" && "T"[1..] == "";
    assert "get"[1..] == "et" && "et"[1..] == "t" && "t"[1..] == "";
    assert Lower("T") == "t" && Lower("ET") == "et";
    assert Lower("t") == "t" && Lower("et") == "et";
  }
}
