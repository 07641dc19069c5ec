/**
 * Route facts read from the registered hook chains (scripts/lib/route-introspection.ts),
 * against what the chain does at run time (src/server/middleware/auth.ts).
 */
module Routes {
  import opened Wrappers

  type Role = nat
  type Permission = nat
  type HandlerRef = nat

  /** A route-level `preHandler`, by its tag; `Untagged` is any hook without one. */
  datatype Hook =
    | SessionGate
    | PermissionGate(permissions: seq<Permission>)
    | RoleGate(roles: seq<Role>)
    | Untagged(id: nat)

  /** `marked` is `config.auth === 'session'`: `requireSession` wrote it and put its session
      gate among the instance hooks, which run before every route-level one. */
  datatype Route = Route(
    methods: seq<string>, url: string, handler: HandlerRef, preHandler: seq<Hook>, marked: bool, hidden: bool)

  type PermissionTable = map<Role, seq<Permission>>

  predicate HasPermission(table: PermissionTable, roles: seq<Role>, p: Permission) {
    exists role :: role in roles && role in table && p in table[role]
  }

  predicate IsAccessGate(h: Hook) {
    h.PermissionGate? || h.RoleGate?
  }

  // ---- The static facts ---------------------------------------------------------

  predicate IsSessionGated(route: Route) {
    route.marked || SessionGate in route.preHandler
  }

  predicate Admits(table: PermissionTable, h: Hook, roles: seq<Role>) {
    match h
    case PermissionGate(permissions) => exists p :: p in permissions && HasPermission(table, roles, p)
    case RoleGate(required) => exists role :: role in required && role in roles
    case _ => true
  }

  predicate GatesAdmit(table: PermissionTable, route: Route, roles: seq<Role>) {
    forall i :: 0 <= i < |route.preHandler| ==> Admits(table, route.preHandler[i], roles)
  }

  /** The gates admit a caller exactly if each permission gate lists a permission that one of the
      caller's roles grants, and each role gate lists one of the caller's roles. */
  lemma GatesAdmitMeaning(table: PermissionTable, route: Route, roles: seq<Role>)
    ensures GatesAdmit(table, route, roles) <==>
              && (forall permissions :: PermissionGate(permissions) in route.preHandler ==>
                    exists p, role :: p in permissions && role in roles && role in table && p in table[role])
              && (forall required :: RoleGate(required) in route.preHandler ==>
                    exists role :: role in roles && role in required)
  {
    assert forall h :: h in route.preHandler <==> exists i :: 0 <= i < |route.preHandler| && route.preHandler[i] == h;
    forall h | h in route.preHandler
      ensures h.PermissionGate? ==>
                (Admits(table, h, roles) <==>
                   exists p, role :: p in h.permissions && role in roles && role in table && p in table[role])
      ensures h.RoleGate? ==> (Admits(table, h, roles) <==> exists role :: role in roles && role in h.roles)
    {
    }
    assert GatesAdmit(table, route, roles) <==> forall h :: h in route.preHandler ==> Admits(table, h, roles);
    hide Admits, GatesAdmit, HasPermission;
  }

  /** `chain.findIndex(...)`, with the chain's length for "not found". */
  function FirstAccessGate(chain: seq<Hook>): (i: nat)
    ensures i <= |chain| && (i < |chain| ==> IsAccessGate(chain[i]))
    ensures forall j :: 0 <= j < i ==> !IsAccessGate(chain[j])
  {
    if chain == [] || IsAccessGate(chain[0]) then 0 else 1 + FirstAccessGate(chain[1..])
  }

  function FirstSessionGate(chain: seq<Hook>): (i: nat)
    ensures i <= |chain| && (i < |chain| ==> chain[i].SessionGate?)
    ensures forall j :: 0 <= j < i ==> !chain[j].SessionGate?
  {
    if chain == [] || chain[0].SessionGate? then 0 else 1 + FirstSessionGate(chain[1..])
  }

  predicate AccessGatesAuthenticate(route: Route) {
    var chain := route.preHandler;
    || FirstAccessGate(chain) == |chain|
    || route.marked
    || (FirstSessionGate(chain) < |chain| && FirstSessionGate(chain) < FirstAccessGate(chain))
  }

  // ---- What the chain does ----------------------------------------------------------

  /** The caller's session: none that is valid, or an active user's roles. */
  type Caller = Option<seq<Role>>

  datatype Outcome = Reached | Answered(status: nat)

  /** What the untagged hooks do: let the request through, or answer it with a status. */
  type Others = nat -> Option<nat>

  /** Hooks run in order; `user` is `request.user`, which only a session gate sets. */
  function Run(table: PermissionTable, others: Others, hooks: seq<Hook>, caller: Caller, user: Caller): Outcome
    decreases hooks
  {
    if hooks == [] then Reached
    else
      match hooks[0]
      case SessionGate =>
        if caller.None? then Answered(401) else Run(table, others, hooks[1..], caller, caller)
      case Untagged(id) =>
        if others(id).Some? then Answered(others(id).value) else Run(table, others, hooks[1..], caller, user)
      case gate =>
        if user.None? then Answered(401)
        else if !Admits(table, gate, user.value) then Answered(403)
        else Run(table, others, hooks[1..], caller, user)
  }

  /** An access gate gets to run while no user is attached. */
  predicate RunsBlind(table: PermissionTable, others: Others, hooks: seq<Hook>, caller: Caller, user: Caller)
    decreases hooks
  {
    && hooks != []
    && match hooks[0]
       case SessionGate => caller.Some? && RunsBlind(table, others, hooks[1..], caller, caller)
       case Untagged(id) => others(id).None? && RunsBlind(table, others, hooks[1..], caller, user)
       case gate =>
         user.None? || (Admits(table, gate, user.value) && RunsBlind(table, others, hooks[1..], caller, user))
  }

  function Chain(route: Route): seq<Hook> {
    (if route.marked then [SessionGate] else []) + route.preHandler
  }

  function Serve(table: PermissionTable, others: Others, route: Route, caller: Caller): Outcome {
    Run(table, others, Chain(route), caller, None)
  }

  ghost predicate LetThrough(others: Others) {
    forall id :: others(id).None?
  }

  // ---- Soundness and completeness of the gate check --------------------------------------

  lemma {:induction false} AuthenticatedNeverBlind(
    table: PermissionTable, others: Others, hooks: seq<Hook>, caller: Caller, user: Caller)
    requires user.Some? && caller == user
    ensures !RunsBlind(table, others, hooks, caller, user)
    decreases hooks
  {
    if hooks != [] {
      AuthenticatedNeverBlind(table, others, hooks[1..], caller, user);
    }
  }

  /** An access gate with no session gate ahead of it. */
  predicate GateComesFirst(hooks: seq<Hook>) {
    FirstAccessGate(hooks) < |hooks| && FirstAccessGate(hooks) < FirstSessionGate(hooks)
  }

  lemma {:induction false} BlindBeforeSession(
    table: PermissionTable, others: Others, hooks: seq<Hook>, caller: Caller)
    ensures RunsBlind(table, others, hooks, caller, None) ==> GateComesFirst(hooks)
    ensures GateComesFirst(hooks) ==> Run(table, others, hooks, caller, None) != Reached
    ensures GateComesFirst(hooks) && LetThrough(others) ==>
              RunsBlind(table, others, hooks, caller, None)
              && Run(table, others, hooks, caller, None) == Answered(401)
    decreases hooks
  {
    if hooks != [] {
      if hooks[0].SessionGate? && caller.Some? {
        AuthenticatedNeverBlind(table, others, hooks[1..], caller, caller);
      }
      BlindBeforeSession(table, others, hooks[1..], caller);
    }
  }

  lemma ChainOf(route: Route)
    ensures route.marked ==>
              Chain(route) != [] && Chain(route)[0] == SessionGate && Chain(route)[1..] == route.preHandler
    ensures !route.marked ==> Chain(route) == route.preHandler
    ensures !AccessGatesAuthenticate(route) <==> !route.marked && GateComesFirst(route.preHandler)
  {}

  lemma PassingNeverBlind(table: PermissionTable, others: Others, route: Route, caller: Caller)
    requires AccessGatesAuthenticate(route)
    ensures !RunsBlind(table, others, Chain(route), caller, None)
  {
    ChainOf(route);
    hide AccessGatesAuthenticate, GateComesFirst, Chain;
    if !route.marked {
      BlindBeforeSession(table, others, route.preHandler, caller);
    } else if caller.Some? {
      AuthenticatedNeverBlind(table, others, route.preHandler, caller, caller);
    }
  }

  /** The check passes exactly when no caller and no behaviour of the other hooks can make an
      access gate of the route run before a user is attached. */
  lemma GateCheckIsExact(table: PermissionTable, route: Route)
    ensures AccessGatesAuthenticate(route) <==>
              forall others: Others, caller :: !RunsBlind(table, others, Chain(route), caller, None)
  {
    hide AccessGatesAuthenticate, RunsBlind;
    if AccessGatesAuthenticate(route) {
      forall others: Others, caller
        ensures !RunsBlind(table, others, Chain(route), caller, None)
      {
        PassingNeverBlind(table, others, route, caller);
      }
    } else {
      var others := FailingIsBlind(table, route);
    }
  }

  lemma FailingIsBlind(table: PermissionTable, route: Route) returns (others: Others)
    requires !AccessGatesAuthenticate(route)
    ensures RunsBlind(table, others, Chain(route), None, None)
  {
    others := SilentHooks();
    ChainOf(route);
    hide AccessGatesAuthenticate, GateComesFirst, Chain, RunsBlind, LetThrough;
    BlindBeforeSession(table, others, route.preHandler, None);
  }

  lemma SilentHooks() returns (others: Others)
    ensures LetThrough(others)
  {
    others := (id: nat) => None;
  }

  /** A reported route is dead: no caller reaches its handler, whatever the other hooks do,
      and where they let the request through every caller gets 401. */
  lemma ReportedRouteIsDead(table: PermissionTable, others: Others, route: Route, caller: Caller)
    requires !AccessGatesAuthenticate(route)
    ensures Serve(table, others, route, caller) != Reached
    ensures LetThrough(others) ==> Serve(table, others, route, caller) == Answered(401)
  {
    ChainOf(route);
    hide AccessGatesAuthenticate, GateComesFirst, Chain, Run, RunsBlind;
    BlindBeforeSession(table, others, route.preHandler, caller);
  }

  lemma {:induction false} AuthenticatedRun(
    table: PermissionTable, others: Others, hooks: seq<Hook>, roles: seq<Role>)
    requires LetThrough(others)
    ensures Run(table, others, hooks, Some(roles), Some(roles)) ==
              if forall i :: 0 <= i < |hooks| ==> Admits(table, hooks[i], roles) then Reached else Answered(403)
    decreases hooks
  {
    hide Admits;
    if hooks != [] {
      AuthenticatedRun(table, others, hooks[1..], roles);
      AdmitsAll(table, hooks, roles);
      UngatedAdmit(table, hooks[0], roles);
    }
  }

  lemma AdmitsAll(table: PermissionTable, hooks: seq<Hook>, roles: seq<Role>)
    requires hooks != []
    ensures (forall i :: 0 <= i < |hooks| ==> Admits(table, hooks[i], roles)) <==>
              Admits(table, hooks[0], roles)
              && forall i :: 0 <= i < |hooks[1..]| ==> Admits(table, hooks[1..][i], roles)
  {
    hide Admits;
    assert forall i :: 1 <= i < |hooks| ==> hooks[i] == hooks[1..][i - 1];
  }

  lemma UngatedAdmit(table: PermissionTable, h: Hook, roles: seq<Role>)
    ensures !IsAccessGate(h) ==> Admits(table, h, roles)
  {}

  /** Up to the first session gate, with no access gate ahead of it, a run only waits. */
  lemma {:induction false} PassingRun(table: PermissionTable, others: Others, hooks: seq<Hook>, caller: Caller)
    requires LetThrough(others)
    requires FirstAccessGate(hooks) == |hooks| || FirstSessionGate(hooks) < FirstAccessGate(hooks)
    ensures caller.Some? ==>
              Run(table, others, hooks, caller, None) ==
              if forall i :: 0 <= i < |hooks| ==> Admits(table, hooks[i], caller.value) then Reached else Answered(403)
    ensures caller.None? ==>
              Run(table, others, hooks, caller, None) == if SessionGate in hooks then Answered(401) else Reached
    decreases hooks
  {
    hide Admits;
    if hooks != [] {
      if caller.Some? {
        AdmitsAll(table, hooks, caller.value);
        UngatedAdmit(table, hooks[0], caller.value);
      }
      if hooks[0].SessionGate? {
        if caller.Some? {
          AuthenticatedRun(table, others, hooks[1..], caller.value);
        }
      } else {
        PassingRun(table, others, hooks[1..], caller);
        assert SessionGate in hooks <==> SessionGate in hooks[1..];
      }
    }
  }

  /** On a route that passes, where the other hooks let the request through: an authenticated
      caller reaches the handler exactly when `gatesAdmit` holds and gets 403 otherwise; an
      unauthenticated one reaches it exactly when the route is not session-gated. */
  lemma PassingRouteServes(table: PermissionTable, others: Others, route: Route, caller: Caller)
    requires AccessGatesAuthenticate(route) && LetThrough(others)
    ensures caller.Some? ==>
              Serve(table, others, route, caller)
              == if GatesAdmit(table, route, caller.value) then Reached else Answered(403)
    ensures caller.None? ==>
              Serve(table, others, route, caller) == if IsSessionGated(route) then Answered(401) else Reached
  {
    ChainOf(route);
    if route.marked {
      if caller.Some? {
        AuthenticatedRun(table, others, route.preHandler, caller.value);
      }
    } else {
      PassingRun(table, others, route.preHandler, caller);
    }
  }

  // ---- The list of routes -----------------------------------------------------------------

  /** The handler of the last GET route at a URL. */
  function GetHandler(routes: seq<Route>, url: string): Option<HandlerRef> {
    if routes == [] then None
    else
      var last := routes[|routes| - 1];
      if "GET" in last.methods && last.url == url then Some(last.handler) else GetHandler(routes[..|routes| - 1], url)
  }

  /** Fastify's automatic HEAD companion: HEAD alone, sharing the GET route's handler. */
  predicate IsAutoHead(routes: seq<Route>, route: Route) {
    route.methods == ["HEAD"] && GetHandler(routes, route.url) == Some(route.handler)
  }

  /** A HEAD route is the automatic companion exactly if it serves HEAD alone and the last GET
      route of its URL, which may serve other methods too, has its handler. */
  lemma AutoHeadMeaning(routes: seq<Route>, route: Route)
    ensures IsAutoHead(routes, route) <==>
              route.methods == ["HEAD"]
              && exists i :: 0 <= i < |routes| && routes[i].handler == route.handler && IsLastGet(routes, i, route.url)
  {
    LastGetHandler(routes, route.url, route.handler);
  }

  predicate IsLastGet(routes: seq<Route>, i: nat, url: string)
    requires i < |routes|
  {
    && "GET" in routes[i].methods && routes[i].url == url
    && forall j :: i < j < |routes| ==> !("GET" in routes[j].methods && routes[j].url == url)
  }

  lemma {:induction false} LastGetHandler(routes: seq<Route>, url: string, handler: HandlerRef)
    ensures GetHandler(routes, url) == Some(handler) <==>
              exists i :: 0 <= i < |routes| && routes[i].handler == handler && IsLastGet(routes, i, url)
  {
    if routes != [] {
      var last := |routes| - 1;
      var before := routes[..last];
      LastGetHandler(before, url, handler);
      if "GET" in routes[last].methods && routes[last].url == url {
        assert IsLastGet(routes, last, url);
      } else {
        forall i | 0 <= i < last
          ensures IsLastGet(before, i, url) <==> IsLastGet(routes, i, url)
        {
          assert forall j :: i < j < last ==> before[j] == routes[j];
        }
        if i :| 0 <= i < last && before[i].handler == handler && IsLastGet(before, i, url) {
          assert routes[i].handler == handler && IsLastGet(routes, i, url);
        }
        if i :| 0 <= i < |routes| && routes[i].handler == handler && IsLastGet(routes, i, url) {
          assert i < last && before[i].handler == handler && IsLastGet(before, i, url);
        }
      }
    }
  }

  function Declared(routes: seq<Route>, among: seq<Route>): seq<Route> {
    if among == [] then []
    else
      var last := among[|among| - 1];
      Declared(routes, among[..|among| - 1]) + if IsAutoHead(routes, last) then [] else [last]
  }

  lemma {:induction false} DeclaredMembers(routes: seq<Route>, among: seq<Route>)
    ensures forall r :: r in Declared(routes, among) <==> r in among && !IsAutoHead(routes, r)
  {
    hide IsAutoHead;
    if among != [] {
      DeclaredMembers(routes, among[..|among| - 1]);
      assert among == among[..|among| - 1] + [among[|among| - 1]];
    }
  }

  method WithoutAutoHeadRoutes(routes: seq<Route>) returns (declared: seq<Route>)
    ensures declared == Declared(routes, routes)
  {
    var getHandlers: map<string, HandlerRef> := map[];
    for i := 0 to |routes|
      invariant forall url :: url in getHandlers <==> GetHandler(routes[..i], url).Some?
      invariant forall url :: url in getHandlers ==> GetHandler(routes[..i], url) == Some(getHandlers[url])
    {
      assert routes[..i + 1][..i] == routes[..i];
      if "GET" in routes[i].methods {
        getHandlers := getHandlers[routes[i].url := routes[i].handler];
      }
    }
    assert routes[..|routes|] == routes;
    hide GetHandler;
    declared := [];
    for i := 0 to |routes|
      invariant declared == Declared(routes, routes[..i])
    {
      assert routes[..i + 1][..i] == routes[..i];
      var route := routes[i];
      if !(|route.methods| == 1 && route.methods[0] == "HEAD"
           && route.url in getHandlers && getHandlers[route.url] == route.handler) {
        declared := declared + [route];
      }
    }
    assert routes[..|routes|] == routes;
  }

  /** The guard: the routes it throws over, none when it passes. */
  method AssertGatesAuthenticate(routes: seq<Route>) returns (orphaned: seq<Route>)
    ensures forall r :: r in orphaned <==> r in routes && !IsAutoHead(routes, r) && !AccessGatesAuthenticate(r)
    ensures orphaned == [] <==>
              forall r :: r in routes && !IsAutoHead(routes, r) ==> AccessGatesAuthenticate(r)
  {
    hide IsAutoHead, AccessGatesAuthenticate;
    var declared := WithoutAutoHeadRoutes(routes);
    DeclaredMembers(routes, routes);
    orphaned := [];
    for i := 0 to |declared|
      invariant forall r :: r in orphaned <==> r in declared[..i] && !AccessGatesAuthenticate(r)
    {
      if !AccessGatesAuthenticate(declared[i]) {
        orphaned := orphaned + [declared[i]];
      }
    }
    assert declared[..|declared|] == declared;
    if orphaned != [] {
      assert orphaned[0] in orphaned;
    }
  }
}
