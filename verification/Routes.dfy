/** internal/traefik/config.go: the dynamic file that exposes one app's services under custom domains and under a path
    of the public host. */
module Routes {
  import opened Common
  import opened Strings

  datatype ServiceRoute = ServiceRoute(app: string, name: string, domains: seq<string>, ip: string, port: int)

  datatype Config = Config(routes: seq<ServiceRoute>, publicHost: string, appPathPrefix: string, certResolver: string)

  /** Traefik's rule language, as far as it is used; RuleText is what the file holds. */
  datatype Rule = HostRule(hosts: seq<string>) | PathRule(host: string, prefix: string)

  datatype Router = Router(rule: Rule, entry: string, service: string, middlewares: seq<string>, tls: Option<string>)

  datatype Middleware = RedirectToHttps | StripPrefix(prefix: string)

  datatype Backend = Backend(ip: string, port: int)

  datatype Dynamic = Dynamic(routers: map<string, Router>, middlewares: map<string, Middleware>,
                             services: map<string, Backend>)

  // ---------------------------------------------------------------- names

  function SanitizeChar(c: char): char {
    if 'a' <= c <= 'z' || '0' <= c <= '9' then c
    else if 'A' <= c <= 'Z' then 'a' + (c - 'A')
    else '-'
  }

  function Sanitize(s: string): (r: string)
    ensures |r| == |s| && forall i | 0 <= i < |s| :: r[i] == SanitizeChar(s[i])
  {
    if s == "" then "" else [SanitizeChar(s[0])] + Sanitize(s[1..])
  }

  /** A name of lower-case letters, digits and dashes is kept, and the case of letters does not matter. */
  lemma PlainNamesAreKept(s: string, t: string)
    requires forall c | c in s :: 'a' <= c <= 'z' || '0' <= c <= '9' || c == '-'
    requires |t| == |s| && forall i | 0 <= i < |s| ::
      t[i] == s[i] || ('A' <= t[i] <= 'Z' && t[i] as int - 'A' as int == s[i] as int - 'a' as int)
    ensures Sanitize(s) == s && Sanitize(t) == s
  {
    forall i | 0 <= i < |s| ensures Sanitize(s)[i] == s[i] && Sanitize(t)[i] == s[i] {
      assert s[i] in s;
      PlainCharIsKept(s[i], t[i]);
    }
  }

  lemma PlainCharIsKept(c: char, d: char)
    requires 'a' <= c <= 'z' || '0' <= c <= '9' || c == '-'
    requires d == c || ('A' <= d <= 'Z' && d as int - 'A' as int == c as int - 'a' as int)
    ensures SanitizeChar(c) == c && SanitizeChar(d) == c
  {
  }

  function ServiceKey(app: string, name: string): string {
    Sanitize(app) + "-" + Sanitize(name)
  }

  function Key(r: ServiceRoute): string {
    ServiceKey(r.app, r.name)
  }

  function RouteID(r: ServiceRoute): string {
    r.app + "\0" + r.name
  }

  /** A service named web has the app's own path, every other one a path of its own. */
  function PathKey(r: ServiceRoute): string {
    if r.name == "web" then Sanitize(r.app) else Key(r)
  }

  function NormalizePrefix(p: string): (r: string)
    ensures r == "" <==> p in {"", "/"}
    ensures r != "" ==> HasPrefix(r, "/") && r[|r| - 1] == '/' && r in {p, "/" + p, p + "/", "/" + p + "/"}
    ensures HasPrefix(p, "/") ==> HasPrefix(r, p) || r == ""
  {
    if p == "" || p == "/" then ""
    else
      var q := if HasPrefix(p, "/") then p else "/" + p;
      if q[|q| - 1] == '/' then q else q + "/"
  }

  predicate PathRouting(cfg: Config) {
    cfg.publicHost != "" && NormalizePrefix(cfg.appPathPrefix) != ""
  }

  predicate Active(r: ServiceRoute) {
    r.ip != "" && r.port != 0
  }

  // ---------------------------------------------------------------- validation

  predicate Alnum(c: char) {
    'A' <= c <= 'Z' || 'a' <= c <= 'z' || '0' <= c <= '9'
  }

  predicate Label(s: string) {
    1 <= |s| <= 63 && Alnum(s[0]) && Alnum(s[|s| - 1]) && forall i | 0 <= i < |s| :: Alnum(s[i]) || s[i] == '-'
  }

  /** Dot-separated labels, the last one of 2 to 63 letters. */
  predicate ValidDomain(domain: string) {
    var labels := Split(domain, '.');
    var last := labels[|labels| - 1];
    |domain| <= 253 && |labels| >= 2
    && (forall i | 0 <= i < |labels| - 1 :: Label(labels[i]))
    && 2 <= |last| <= 63 && forall i | 0 <= i < |last| :: 'A' <= last[i] <= 'Z' || 'a' <= last[i] <= 'z'
  }

  predicate Quotable(s: string) {
    '`' !in s && '\r' !in s && '\n' !in s
  }

  predicate ValidRoute(r: ServiceRoute, parseIP: string -> bool) {
    (r.ip == "" || parseIP(r.ip)) && 0 <= r.port <= 65535 && forall d | d in r.domains :: ValidDomain(d)
  }

  predicate ValidInputs(cfg: Config, parseIP: string -> bool) {
    && Quotable(cfg.publicHost) && Quotable(cfg.certResolver)
    && Quotable(cfg.appPathPrefix) && !Contains(cfg.appPathPrefix, "..")
    && forall r | r in cfg.routes :: ValidRoute(r, parseIP)
  }

  // ---------------------------------------------------------------- what each route asks for

  function TLS(cfg: Config): Option<string> {
    if cfg.certResolver != "" then Some(cfg.certResolver) else None
  }

  function DomainRouters(cfg: Config, r: ServiceRoute): map<string, Router> {
    var k := Key(r);
    var rule := HostRule(SortStrings(r.domains));
    if r.domains == [] then map[]
    else if cfg.certResolver == "" then map[k + "-web" := Router(rule, "web", k, [], None)]
    else map[k + "-secure" := Router(rule, "websecure", k, [], TLS(cfg)),
             k + "-web" := Router(rule, "web", k, [k + "-https"], None)]
  }

  function PathRouters(cfg: Config, pathKey: string, r: ServiceRoute): map<string, Router> {
    var k := Key(r);
    var rule := PathRule(cfg.publicHost, NormalizePrefix(cfg.appPathPrefix) + pathKey + "/");
    if !PathRouting(cfg) then map[]
    else if cfg.certResolver == "" then map[k + "-path-web" := Router(rule, "web", k, [k + "-strip"], None)]
    else map[k + "-path-secure" := Router(rule, "websecure", k, [k + "-strip"], TLS(cfg)),
             k + "-path-web" := Router(rule, "web", k, [k + "-strip", k + "-https"], None)]
  }

  function MiddlewaresFor(cfg: Config, pathKey: string, r: ServiceRoute): map<string, Middleware> {
    var k := Key(r);
    (if cfg.certResolver != "" then map[k + "-https" := RedirectToHttps] else map[])
    + (if PathRouting(cfg) then map[k + "-strip" := StripPrefix(NormalizePrefix(cfg.appPathPrefix) + pathKey)]
       else map[])
  }

  function Wanted(cfg: Config, pathKey: string, r: ServiceRoute): map<string, Router> {
    DomainRouters(cfg, r) + PathRouters(cfg, pathKey, r)
  }

  function KeyAt(cfg: Config, keys: map<string, string>, i: nat): string
    requires i < |cfg.routes| && Keyed(cfg, keys)
  {
    assert cfg.routes[i] in cfg.routes;
    keys[RouteID(cfg.routes[i])]
  }

  function WantedAt(cfg: Config, keys: map<string, string>, i: nat): map<string, Router>
    requires i < |cfg.routes| && Keyed(cfg, keys)
  {
    if Active(cfg.routes[i]) then Wanted(cfg, KeyAt(cfg, keys, i), cfg.routes[i]) else map[]
  }

  function MiddlewaresAt(cfg: Config, keys: map<string, string>, i: nat): map<string, Middleware>
    requires i < |cfg.routes| && Keyed(cfg, keys)
  {
    if Active(cfg.routes[i]) then MiddlewaresFor(cfg, KeyAt(cfg, keys, i), cfg.routes[i]) else map[]
  }

  function ServiceAt(cfg: Config, i: nat): map<string, Backend>
    requires i < |cfg.routes|
  {
    var r := cfg.routes[i];
    if Active(r) then map[Key(r) := Backend(r.ip, r.port)] else map[]
  }

  /** The file after the first n routes, each laid over the ones before it. */
  function Built(cfg: Config, keys: map<string, string>, n: nat): Dynamic
    requires n <= |cfg.routes| && Keyed(cfg, keys)
  {
    if n == 0 then Dynamic(map[], map[], map[])
    else
      var d := Built(cfg, keys, n - 1);
      Dynamic(d.routers + WantedAt(cfg, keys, n - 1), d.middlewares + MiddlewaresAt(cfg, keys, n - 1),
              d.services + ServiceAt(cfg, n - 1))
  }

  predicate Keyed(cfg: Config, keys: map<string, string>) {
    forall r | r in cfg.routes :: RouteID(r) in keys
  }

  /** Each route's path key; with a NUL byte in an app name it could be the one of a namesake. */
  ghost predicate PathKeys(cfg: Config, keys: map<string, string>) {
    Keyed(cfg, keys)
    && forall r | r in cfg.routes ::
         exists q :: q in cfg.routes && RouteID(q) == RouteID(r) && keys[RouteID(r)] == PathKey(q)
  }

  /** Two routes that would overwrite each other's service, or claim the same path. */
  predicate CollidesAt(cfg: Config, keys: map<string, string>, i: nat, j: nat)
    requires i < |cfg.routes| && j < |cfg.routes| && Keyed(cfg, keys)
  {
    var a, b := cfg.routes[i], cfg.routes[j];
    Active(a) && Active(b) && (Key(a) == Key(b) || (PathRouting(cfg) && KeyAt(cfg, keys, i) == KeyAt(cfg, keys, j)))
  }

  ghost predicate Clean(cfg: Config, keys: map<string, string>, n: nat)
    requires n <= |cfg.routes| && Keyed(cfg, keys)
  {
    forall i, j | 0 <= i < j < n :: !CollidesAt(cfg, keys, i, j)
  }

  predicate Exposes(cfg: Config, n: nat)
    requires n <= |cfg.routes|
  {
    exists i | 0 <= i < n :: Active(cfg.routes[i]) && (PathRouting(cfg) || cfg.routes[i].domains != [])
  }

  // ---------------------------------------------------------------- the code

  method PathKeysFor(cfg: Config) returns (keys: map<string, string>)
    ensures PathKeys(cfg, keys)
  {
    var byApp: map<string, seq<ServiceRoute>> := map[];
    for i := 0 to |cfg.routes|
      invariant forall a, q | a in byApp && q in byApp[a] :: q in cfg.routes && q.app == a
      invariant forall k | 0 <= k < i :: cfg.routes[k].app in byApp && cfg.routes[k] in byApp[cfg.routes[k].app]
    {
      var r := cfg.routes[i];
      byApp := byApp[r.app := (if r.app in byApp then byApp[r.app] else []) + [r]];
    }
    keys := map[];
    var left := byApp.Keys;
    while left != {}
      invariant left <= byApp.Keys
      invariant Owned(cfg, keys)
      invariant forall r | r in cfg.routes && r.app !in left :: RouteID(r) in keys
      decreases |left|
    {
      var app :| app in left;
      left := left - {app};
      keys := AppPathKeys(cfg, app, byApp[app], keys);
    }
  }

  /** The loop over one app's routes. */
  method AppPathKeys(cfg: Config, app: string, routes: seq<ServiceRoute>, before: map<string, string>)
    returns (keys: map<string, string>)
    requires forall q | q in routes :: q in cfg.routes && q.app == app
    requires Owned(cfg, before)
    ensures Owned(cfg, keys)
    ensures before.Keys <= keys.Keys
    ensures forall q | q in routes :: RouteID(q) in keys
  {
    hide Owned, RouteID, Sanitize;
    var primary := Primary(routes);
    keys := before;
    for i := 0 to |routes|
      invariant Owned(cfg, keys)
      invariant before.Keys <= keys.Keys
      invariant forall k | 0 <= k < i :: RouteID(routes[k]) in keys
    {
      var route := routes[i];
      assert route in routes;
      var key := ServiceKey(app, route.name);
      if primary != "" && route.name == primary {
        key := Sanitize(app);
      }
      assert route.name == "web" ==> primary == "web";
      keys := PutKey(cfg, keys, route, key);
    }
  }

  /** Looks for a service named web. */
  method Primary(routes: seq<ServiceRoute>) returns (primary: string)
    ensures primary == if exists i | 0 <= i < |routes| :: routes[i].name == "web" then "web" else ""
  {
    primary := "";
    for i := 0 to |routes|
      invariant primary == ""
      invariant forall k | 0 <= k < i :: routes[k].name != "web"
    {
      if routes[i].name == "web" {
        return routes[i].name;
      }
    }
  }

  method PutKey(cfg: Config, before: map<string, string>, route: ServiceRoute, key: string)
    returns (keys: map<string, string>)
    requires Owned(cfg, before) && route in cfg.routes && key == PathKey(route)
    ensures keys == before[RouteID(route) := key] && Owned(cfg, keys)
  {
    hide PathKey, RouteID;
    keys := before[RouteID(route) := key];
    forall id | id in keys ensures exists q :: q in cfg.routes && RouteID(q) == id && keys[id] == PathKey(q) {
      if id == RouteID(route) {
        assert keys[id] == PathKey(route);
      } else {
        assert id in before;
      }
    }
  }

  /** Every key stored is that of some route with this id. */
  ghost predicate Owned(cfg: Config, keys: map<string, string>) {
    forall id | id in keys :: exists q :: q in cfg.routes && RouteID(q) == id && keys[id] == PathKey(q)
  }

  /** What the loop adds for one route. */
  method AddRoute(cfg: Config, pathKey: string, r: ServiceRoute, before: Dynamic) returns (d: Dynamic)
    ensures d == Dynamic(before.routers + Wanted(cfg, pathKey, r), before.middlewares + MiddlewaresFor(cfg, pathKey, r),
                         before.services + map[Key(r) := Backend(r.ip, r.port)])
  {
    hide Key, MiddlewaresFor, DomainRouters, PathRouters;
    var middlewares := AddMiddlewares(cfg, pathKey, r, before.middlewares);
    var services := before.services[Key(r) := Backend(r.ip, r.port)];
    var routers := before.routers;
    if |r.domains| > 0 {
      routers := AddDomainRouters(cfg, r, routers);
    } else {
      assert DomainRouters(cfg, r) == map[] by { NoneWanted(cfg, pathKey, r); }
    }
    if PathRouting(cfg) {
      routers := AddPathRouters(cfg, pathKey, r, routers);
    } else {
      assert PathRouters(cfg, pathKey, r) == map[] by { NoneWanted(cfg, pathKey, r); }
    }
    MergeAll(before.routers, DomainRouters(cfg, r), PathRouters(cfg, pathKey, r));
    d := Dynamic(routers, middlewares, services);
  }

  lemma NoneWanted(cfg: Config, pathKey: string, r: ServiceRoute)
    ensures r.domains == [] ==> DomainRouters(cfg, r) == map[]
    ensures !PathRouting(cfg) ==> PathRouters(cfg, pathKey, r) == map[]
  {
  }

  method AddMiddlewares(cfg: Config, pathKey: string, r: ServiceRoute, before: map<string, Middleware>)
    returns (middlewares: map<string, Middleware>)
    ensures middlewares == before + MiddlewaresFor(cfg, pathKey, r)
  {
    hide Key, NormalizePrefix;
    middlewares := before;
    if cfg.certResolver != "" {
      middlewares := middlewares[Key(r) + "-https" := RedirectToHttps];
    }
    if PathRouting(cfg) {
      middlewares := middlewares[Key(r) + "-strip" := StripPrefix(NormalizePrefix(cfg.appPathPrefix) + pathKey)];
    }
  }

  lemma MergeAll<K, V>(a: map<K, V>, b: map<K, V>, c: map<K, V>)
    ensures a + (b + c) == (a + b) + c
    ensures b == map[] ==> a + b == a
    ensures c == map[] ==> (a + b) + c == a + b
  {
  }

  method AddDomainRouters(cfg: Config, r: ServiceRoute, before: map<string, Router>)
    returns (routers: map<string, Router>)
    requires r.domains != []
    ensures routers == before + DomainRouters(cfg, r)
  {
    hide Key, SortStrings;
    var key := Key(r);
    var rule := HostRule(SortStrings(r.domains));
    routers := before;
    if cfg.certResolver != "" {
      routers := routers[key + "-secure" := Router(rule, "websecure", key, [], Some(cfg.certResolver))];
      routers := routers[key + "-web" := Router(rule, "web", key, [key + "-https"], None)];
    } else {
      routers := routers[key + "-web" := Router(rule, "web", key, [], None)];
    }
  }

  method AddPathRouters(cfg: Config, pathKey: string, r: ServiceRoute, before: map<string, Router>)
    returns (routers: map<string, Router>)
    requires PathRouting(cfg)
    ensures routers == before + PathRouters(cfg, pathKey, r)
  {
    hide Key, NormalizePrefix;
    var key := Key(r);
    var httpsMw, stripMw := key + "-https", key + "-strip";
    var rule := PathRule(cfg.publicHost, NormalizePrefix(cfg.appPathPrefix) + pathKey + "/");
    routers := before;
    if cfg.certResolver != "" {
      routers := routers[key + "-path-secure" := Router(rule, "websecure", key, [stripMw], Some(cfg.certResolver))];
      routers := routers[key + "-path-web" := Router(rule, "web", key, [stripMw, httpsMw], None)];
    } else {
      routers := routers[key + "-path-web" := Router(rule, "web", key, [stripMw], None)];
    }
  }

  function ServicesSeen(cfg: Config, n: nat): set<string>
    requires n <= |cfg.routes|
  {
    set i | 0 <= i < n && Active(cfg.routes[i]) :: Key(cfg.routes[i])
  }

  function PathsSeen(cfg: Config, keys: map<string, string>, n: nat): set<string>
    requires n <= |cfg.routes| && Keyed(cfg, keys)
  {
    set i | 0 <= i < n && Active(cfg.routes[i]) && PathRouting(cfg) :: KeyAt(cfg, keys, i)
  }

  lemma CleanStep(cfg: Config, keys: map<string, string>, n: nat)
    requires n < |cfg.routes| && Keyed(cfg, keys)
    ensures var r := cfg.routes[n];
      Clean(cfg, keys, n + 1) <==>
        Clean(cfg, keys, n)
        && (Active(r) ==>
              (&& Key(r) !in ServicesSeen(cfg, n)
               && (PathRouting(cfg) ==> KeyAt(cfg, keys, n) !in PathsSeen(cfg, keys, n))))
  {
    hide Key, KeyAt, PathRouting, Keyed;
    var r := cfg.routes[n];
    if Active(r) {
      if Key(r) in ServicesSeen(cfg, n) {
        var i :| 0 <= i < n && Active(cfg.routes[i]) && Key(cfg.routes[i]) == Key(r);
        assert CollidesAt(cfg, keys, i, n);
      }
      if PathRouting(cfg) && KeyAt(cfg, keys, n) in PathsSeen(cfg, keys, n) {
        var i :| 0 <= i < n && Active(cfg.routes[i]) && KeyAt(cfg, keys, i) == KeyAt(cfg, keys, n);
        assert CollidesAt(cfg, keys, i, n);
      }
    }
  }

  lemma SeenStep(cfg: Config, keys: map<string, string>, n: nat)
    requires n < |cfg.routes| && Keyed(cfg, keys)
    ensures var r := cfg.routes[n];
      && ServicesSeen(cfg, n + 1) == ServicesSeen(cfg, n) + (if Active(r) then {Key(r)} else {})
      && PathsSeen(cfg, keys, n + 1) ==
           PathsSeen(cfg, keys, n) + (if Active(r) && PathRouting(cfg) then {KeyAt(cfg, keys, n)} else {})
      && Exposes(cfg, n + 1) == (Exposes(cfg, n) || (Active(r) && (PathRouting(cfg) || r.domains != [])))
  {
    hide Key, KeyAt, PathRouting, Active, Keyed;
  }

  lemma BuiltStep(cfg: Config, keys: map<string, string>, n: nat)
    requires 0 < n <= |cfg.routes| && Keyed(cfg, keys)
    ensures var d := Built(cfg, keys, n - 1);
      Built(cfg, keys, n) == Dynamic(d.routers + WantedAt(cfg, keys, n - 1),
                                     d.middlewares + MiddlewaresAt(cfg, keys, n - 1),
                                     d.services + ServiceAt(cfg, n - 1))
  {
  }

  lemma BuiltNext(cfg: Config, keys: map<string, string>, n: nat)
    requires n < |cfg.routes| && Keyed(cfg, keys)
    ensures var r := cfg.routes[n]; var d := Built(cfg, keys, n);
      Built(cfg, keys, n + 1) ==
        if !Active(r) then d
        else Dynamic(d.routers + Wanted(cfg, KeyAt(cfg, keys, n), r),
                     d.middlewares + MiddlewaresFor(cfg, KeyAt(cfg, keys, n), r),
                     d.services + map[Key(r) := Backend(r.ip, r.port)])
  {
    hide KeyAt, Wanted, MiddlewaresFor, Key, Built, Active, Keyed;
    BuiltStep(cfg, keys, n + 1);
    var d := Built(cfg, keys, n);
    if !Active(cfg.routes[n]) {
      MergeAll(d.routers, map[], map[]);
      MergeAll(d.middlewares, map[], map[]);
      MergeAll(d.services, map[], map[]);
    }
  }

  /** Rendering succeeds exactly on valid inputs whose routes do not collide, and gives the file built from them. */
  ghost predicate RenderedWith(cfg: Config, parseIP: string -> bool, keys: map<string, string>,
                               out: Result<Option<Dynamic>>) {
    && PathKeys(cfg, keys)
    && (out.Ok? <==> ValidInputs(cfg, parseIP) && Clean(cfg, keys, |cfg.routes|))
    && (out.Ok? ==> out.value == if Exposes(cfg, |cfg.routes|) then Some(Built(cfg, keys, |cfg.routes|)) else None)
  }

  /** None is the empty file, written when there is nothing to expose. */
  method Render(cfg: Config, parseIP: string -> bool)
    returns (out: Result<Option<Dynamic>>)
    ensures exists keys :: RenderedWith(cfg, parseIP, keys, out)
  {
    hide PathKeys, ValidInputs, Clean, Exposes, ServicesSeen, PathsSeen, Key, RouteID, Wanted, MiddlewaresFor, Built;
    var keys := PathKeysFor(cfg);
    assert Keyed(cfg, keys) by { KeysCover(cfg, keys); }
    hide Keyed;
    if !ValidInputs(cfg, parseIP) {
      out := Err("invalid route inputs");
      assert RenderedWith(cfg, parseIP, keys, out);
      return;
    }
    var d := Dynamic(map[], map[], map[]);
    var hasSubdomain, hasPath := false, false;
    var seenServices: set<string>, seenPaths: set<string> := {}, {};
    NothingSeen(cfg, keys);
    for n := 0 to |cfg.routes|
      invariant d == Built(cfg, keys, n)
      invariant (hasSubdomain || hasPath) == Exposes(cfg, n)
      invariant Clean(cfg, keys, n)
      invariant seenServices == ServicesSeen(cfg, n)
      invariant seenPaths == PathsSeen(cfg, keys, n)
    {
      var r := cfg.routes[n];
      CleanStep(cfg, keys, n);
      CleanShrinks(cfg, keys, n + 1);
      SeenStep(cfg, keys, n);
      BuiltNext(cfg, keys, n);
      assert RouteID(r) in keys by { Covers(cfg, keys, n); }
      if r.ip == "" || r.port == 0 {
        continue;
      }
      if Key(r) in seenServices {
        out := Err("route service key collision");
        assert RenderedWith(cfg, parseIP, keys, out);
        return;
      }
      seenServices := seenServices + {Key(r)};
      if |r.domains| > 0 {
        hasSubdomain := true;
      }
      if PathRouting(cfg) {
        hasPath := true;
        if keys[RouteID(r)] in seenPaths {
          out := Err("route path key collision");
          assert RenderedWith(cfg, parseIP, keys, out);
          return;
        }
        seenPaths := seenPaths + {keys[RouteID(r)]};
      }
      d := AddRoute(cfg, keys[RouteID(r)], r, d);
    }
    if !hasSubdomain && !hasPath {
      out := Ok(None);
      assert RenderedWith(cfg, parseIP, keys, out);
      return;
    }
    out := Ok(Some(d));
    assert RenderedWith(cfg, parseIP, keys, out);
  }

  lemma KeysCover(cfg: Config, keys: map<string, string>)
    requires PathKeys(cfg, keys)
    ensures Keyed(cfg, keys)
  {
  }

  lemma Covers(cfg: Config, keys: map<string, string>, n: nat)
    requires Keyed(cfg, keys) && n < |cfg.routes|
    ensures RouteID(cfg.routes[n]) in keys
  {
    assert cfg.routes[n] in cfg.routes;
  }

  lemma NothingSeen(cfg: Config, keys: map<string, string>)
    requires Keyed(cfg, keys)
    ensures ServicesSeen(cfg, 0) == {} && PathsSeen(cfg, keys, 0) == {}
    ensures Clean(cfg, keys, 0) && !Exposes(cfg, 0) && Built(cfg, keys, 0) == Dynamic(map[], map[], map[])
  {
  }

  lemma CleanShrinks(cfg: Config, keys: map<string, string>, n: nat)
    requires n <= |cfg.routes| && Keyed(cfg, keys)
    ensures Clean(cfg, keys, |cfg.routes|) ==> Clean(cfg, keys, n)
  {
  }

  // ---------------------------------------------------------------- no dangling references

  ghost predicate Grounded(d: Dynamic, r: Router) {
    r.service in d.services && forall m | m in r.middlewares :: m in d.middlewares
  }

  /** Every router refers to a service and to middlewares of the same file. */
  lemma {:induction false} NothingDangles(cfg: Config, keys: map<string, string>, n: nat)
    requires n <= |cfg.routes| && Keyed(cfg, keys)
    ensures var d := Built(cfg, keys, n); forall name | name in d.routers :: Grounded(d, d.routers[name])
  {
    hide Keyed, KeyAt, WantedAt, MiddlewaresAt, ServiceAt;
    if n > 0 {
      NothingDangles(cfg, keys, n - 1);
      BuiltStep(cfg, keys, n);
      hide Built;
      var before, d := Built(cfg, keys, n - 1), Built(cfg, keys, n);
      WantedIsGrounded(cfg, keys, n - 1, d);
      forall name | name in d.routers ensures Grounded(d, d.routers[name]) {
        if name !in WantedAt(cfg, keys, n - 1) {
          assert Grounded(before, before.routers[name]);
        }
      }
    }
  }

  lemma WantedIsGrounded(cfg: Config, keys: map<string, string>, i: nat, d: Dynamic)
    requires i < |cfg.routes| && Keyed(cfg, keys)
    requires ServiceAt(cfg, i).Keys <= d.services.Keys && MiddlewaresAt(cfg, keys, i).Keys <= d.middlewares.Keys
    ensures var w := WantedAt(cfg, keys, i); forall name | name in w :: Grounded(d, w[name])
  {
    hide NormalizePrefix, Key, KeyAt, SortStrings;
    var k := Key(cfg.routes[i]);
    var mws := MiddlewaresAt(cfg, keys, i);
    assert Active(cfg.routes[i]) && cfg.certResolver != "" ==> k + "-https" in mws;
    assert Active(cfg.routes[i]) && PathRouting(cfg) ==> k + "-strip" in mws;
  }

  // ---------------------------------------------------------------- which routers are there

  /** Route i asks for this router under this name. */
  ghost predicate Asks(cfg: Config, keys: map<string, string>, i: nat, name: string, router: Router)
    requires i < |cfg.routes| && Keyed(cfg, keys)
  {
    name in WantedAt(cfg, keys, i) && WantedAt(cfg, keys, i)[name] == router
  }

  /** No router but those some route asks for, and one for every name asked for. */
  lemma {:induction false} RoutersAreAskedFor(cfg: Config, keys: map<string, string>, n: nat)
    requires n <= |cfg.routes| && Keyed(cfg, keys)
    ensures var d := Built(cfg, keys, n);
      forall name | name in d.routers :: exists i :: 0 <= i < n && Asks(cfg, keys, i, name, d.routers[name])
    ensures forall i | 0 <= i < n :: WantedAt(cfg, keys, i).Keys <= Built(cfg, keys, n).routers.Keys
  {
    hide WantedAt, MiddlewaresAt, ServiceAt, Keyed;
    if n > 0 {
      RoutersAreAskedFor(cfg, keys, n - 1);
      BuiltStep(cfg, keys, n);
      hide Built;
      var before, d := Built(cfg, keys, n - 1), Built(cfg, keys, n);
      forall name | name in d.routers ensures exists i :: 0 <= i < n && Asks(cfg, keys, i, name, d.routers[name]) {
        if name in WantedAt(cfg, keys, n - 1) {
          assert Asks(cfg, keys, n - 1, name, d.routers[name]);
        } else {
          var i :| 0 <= i < n - 1 && Asks(cfg, keys, i, name, before.routers[name]);
          assert Asks(cfg, keys, i, name, d.routers[name]);
        }
      }
    }
  }

  lemma {:induction false} AskedBy(cfg: Config, keys: map<string, string>, name: string) returns (i: nat)
    requires Keyed(cfg, keys) && name in Built(cfg, keys, |cfg.routes|).routers
    ensures i < |cfg.routes| && Asks(cfg, keys, i, name, Built(cfg, keys, |cfg.routes|).routers[name])
  {
    hide Asks, Built, Keyed;
    var d := Built(cfg, keys, |cfg.routes|);
    RoutersAreAskedFor(cfg, keys, |cfg.routes|);
    i :| 0 <= i < |cfg.routes| && Asks(cfg, keys, i, name, d.routers[name]);
  }

  // ---------------------------------------------------------------- path rules do not overlap

  predicate Matches(rule: Rule, path: string) {
    rule.PathRule? && HasPrefix(path, rule.prefix)
  }

  function PathRouterName(r: ServiceRoute, entry: string): string {
    Key(r) + (if entry == "web" then "-path-web" else "-path-secure")
  }

  lemma {:induction false} PathRouterShape(cfg: Config, keys: map<string, string>, i: nat, name: string, router: Router)
    requires i < |cfg.routes| && Keyed(cfg, keys) && Asks(cfg, keys, i, name, router)
    ensures router.service == Key(cfg.routes[i]) && Active(cfg.routes[i])
    ensures router.rule.PathRule? ==>
      PathRouting(cfg) && name == PathRouterName(cfg.routes[i], router.entry)
      && router.rule == PathRule(cfg.publicHost, NormalizePrefix(cfg.appPathPrefix) + KeyAt(cfg, keys, i) + "/")
    ensures router.rule.HostRule? ==>
      cfg.routes[i].domains != [] && router.rule.hosts == SortStrings(cfg.routes[i].domains)
  {
    hide Key, KeyAt, NormalizePrefix, SortStrings;
  }

  lemma {:induction false} KeyHasNoSlash(cfg: Config, keys: map<string, string>, i: nat)
    requires i < |cfg.routes| && PathKeys(cfg, keys)
    ensures forall c | c in KeyAt(cfg, keys, i) :: PathChar(c)
  {
    hide RouteID, PathKey;
    var q := KeyOwner(cfg, keys, i);
    PathKeyChars(q);
  }

  predicate PathChar(c: char) {
    'a' <= c <= 'z' || '0' <= c <= '9' || c == '-'
  }

  lemma {:induction false} KeyOwner(cfg: Config, keys: map<string, string>, i: nat) returns (q: ServiceRoute)
    requires i < |cfg.routes| && PathKeys(cfg, keys)
    ensures q in cfg.routes && RouteID(q) == RouteID(cfg.routes[i]) && KeyAt(cfg, keys, i) == PathKey(q)
  {
    hide RouteID, PathKey;
    var r := cfg.routes[i];
    assert r in cfg.routes;
    q :| q in cfg.routes && RouteID(q) == RouteID(r) && keys[RouteID(r)] == PathKey(q);
  }

  lemma PathKeyChars(r: ServiceRoute)
    ensures forall c | c in PathKey(r) :: PathChar(c)
  {
    hide SanitizeChar;
    SanitizedChars(r.app);
    SanitizedChars(r.name);
  }

  lemma SanitizedChars(s: string)
    ensures forall c | c in Sanitize(s) :: PathChar(c)
  {
    forall i | 0 <= i < |s| ensures PathChar(Sanitize(s)[i]) {
      assert Sanitize(s)[i] == SanitizeChar(s[i]);
    }
  }

  lemma OneKeyPerPath(p: string, a: string, b: string, path: string)
    requires '/' !in a && '/' !in b
    requires HasPrefix(path, p + a + "/") && HasPrefix(path, p + b + "/")
    ensures a == b
  {
    if |a| < |b| {
      SlashInside(p, a, b, path);
      assert false;
    } else if |b| < |a| {
      SlashInside(p, b, a, path);
      assert false;
    } else {
      assert path[|p|..|p + a|] == a && path[|p|..|p + b|] == b;
    }
  }

  lemma SlashInside(p: string, a: string, b: string, path: string)
    requires |a| < |b| && HasPrefix(path, p + a + "/") && HasPrefix(path, p + b + "/")
    ensures '/' in b
  {
    assert path[|p + a|] == (p + a + "/")[|p + a|] == '/';
    assert path[|p + a|] == (p + b + "/")[|p + a|] == b[|a|];
  }

  /** A request path matches the path rules of one service only, and of one router per entry point. */
  lemma PathsDoNotOverlap(cfg: Config, keys: map<string, string>, a: string, b: string, path: string)
    requires PathKeys(cfg, keys) && Clean(cfg, keys, |cfg.routes|)
    requires var d := Built(cfg, keys, |cfg.routes|);
      a in d.routers && b in d.routers && Matches(d.routers[a].rule, path) && Matches(d.routers[b].rule, path)
    ensures var d := Built(cfg, keys, |cfg.routes|);
      d.routers[a].service == d.routers[b].service && (d.routers[a].entry == d.routers[b].entry ==> a == b)
  {
    hide Built, Asks, Keyed, Key, KeyAt, NormalizePrefix, PathRouting, PathKeys, HasPrefix;
    KeysCover(cfg, keys);
    var n := |cfg.routes|;
    var d := Built(cfg, keys, n);
    var i := AskedBy(cfg, keys, a);
    var j := AskedBy(cfg, keys, b);
    PathRouterShape(cfg, keys, i, a, d.routers[a]);
    PathRouterShape(cfg, keys, j, b, d.routers[b]);
    KeyHasNoSlash(cfg, keys, i);
    KeyHasNoSlash(cfg, keys, j);
    assert i < j ==> !CollidesAt(cfg, keys, i, j);
    assert j < i ==> !CollidesAt(cfg, keys, j, i);
    OneKeyPerPath(NormalizePrefix(cfg.appPathPrefix), KeyAt(cfg, keys, i), KeyAt(cfg, keys, j), path);
  }

  // ---------------------------------------------------------------- every router is there

  /** One service's domain router bears the name of another's path router: one is called x-path, the other x. */
  predicate NamesClash(cfg: Config, i: nat, j: nat)
    requires i < |cfg.routes| && j < |cfg.routes|
  {
    var a, b := cfg.routes[i], cfg.routes[j];
    Active(a) && Active(b) && PathRouting(cfg) && a.domains != [] && Key(a) == Key(b) + "-path"
  }

  lemma SuffixesDiffer(k: string, j: string)
    ensures k + "-web" != j + "-secure" && k + "-web" != j + "-path-secure" && k + "-path-web" != j + "-path-secure"
    ensures k + "-secure" != j + "-path-web" && k + "-strip" != j + "-https"
    ensures k + "-web" == j + "-web" ==> k == j
    ensures k + "-secure" == j + "-secure" ==> k == j
    ensures k + "-strip" == j + "-strip" ==> k == j
    ensures k + "-path-web" == j + "-path-web" ==> k == j
    ensures k + "-path-secure" == j + "-path-secure" ==> k == j
    ensures k + "-web" == j + "-path-web" ==> k == j + "-path"
    ensures k + "-secure" == j + "-path-secure" ==> k == j + "-path"
  {
    assert (k + "-web")[|k + "-web"| - 1] == 'b' && (k + "-path-web")[|k + "-path-web"| - 1] == 'b';
    assert (j + "-secure")[|j + "-secure"| - 1] == 'e' && (j + "-path-secure")[|j + "-path-secure"| - 1] == 'e';
    assert (k + "-secure")[|k + "-secure"| - 1] == 'e' && (j + "-path-web")[|j + "-path-web"| - 1] == 'b';
    assert (k + "-strip")[|k + "-strip"| - 1] == 'p' && (j + "-https")[|j + "-https"| - 1] == 's';
    CutTail(k, j, "-web");
    CutTail(k, j, "-secure");
    CutTail(k, j, "-strip");
    CutTail(k, j, "-path-web");
    CutTail(k, j, "-path-secure");
    assert j + "-path-web" == (j + "-path") + "-web" && j + "-path-secure" == (j + "-path") + "-secure";
    CutTail(k, j + "-path", "-web");
    CutTail(k, j + "-path", "-secure");
  }

  lemma CutTail(a: string, b: string, tail: string)
    ensures a + tail == b + tail ==> a == b
  {
    if a + tail == b + tail {
      assert (a + tail)[..|a|] == a && (b + tail)[..|b|] == b;
    }
  }

  lemma SharedNameClashes(cfg: Config, keys: map<string, string>, i: nat, j: nat, name: string)
    requires i < |cfg.routes| && j < |cfg.routes| && Keyed(cfg, keys)
    requires name in WantedAt(cfg, keys, i) && name in WantedAt(cfg, keys, j)
    ensures Key(cfg.routes[i]) == Key(cfg.routes[j]) || NamesClash(cfg, i, j) || NamesClash(cfg, j, i)
  {
    hide Key, Keyed, WantedAt, PathRouting, Active;
    WantedNames(cfg, keys, i, name);
    WantedNames(cfg, keys, j, name);
    SuffixesDiffer(Key(cfg.routes[i]), Key(cfg.routes[j]));
    SuffixesDiffer(Key(cfg.routes[j]), Key(cfg.routes[i]));
  }

  lemma WantedNames(cfg: Config, keys: map<string, string>, i: nat, name: string)
    requires i < |cfg.routes| && Keyed(cfg, keys) && name in WantedAt(cfg, keys, i)
    ensures var k := Key(cfg.routes[i]);
      && Active(cfg.routes[i])
      && ((cfg.routes[i].domains != [] && (name == k + "-web" || name == k + "-secure"))
          || (PathRouting(cfg) && (name == k + "-path-web" || name == k + "-path-secure")))
  {
    hide Key, KeyAt, NormalizePrefix, SortStrings;
  }

  ghost predicate AllKept(cfg: Config, keys: map<string, string>)
    requires Keyed(cfg, keys)
  {
    forall i, name | 0 <= i < |cfg.routes| && name in WantedAt(cfg, keys, i) ::
      name in Built(cfg, keys, |cfg.routes|).routers
      && Built(cfg, keys, |cfg.routes|).routers[name] == WantedAt(cfg, keys, i)[name]
  }

  /** Every route has all the routers it asks for, unless a service x-path with a domain stands beside a service x. */
  lemma AllKeptIffNoClash(cfg: Config, keys: map<string, string>)
    requires Keyed(cfg, keys) && Clean(cfg, keys, |cfg.routes|)
    ensures AllKept(cfg, keys) <==>
      forall i, j | 0 <= i < |cfg.routes| && 0 <= j < |cfg.routes| :: !NamesClash(cfg, i, j)
  {
    hide Built, Keyed, WantedAt, NamesClash, Clean, AllKept;
    if i, j :| 0 <= i < |cfg.routes| && 0 <= j < |cfg.routes| && NamesClash(cfg, i, j) {
      ClashLoses(cfg, keys, i, j);
    } else {
      NoClashKeeps(cfg, keys);
    }
  }

  lemma ClashLoses(cfg: Config, keys: map<string, string>, i: nat, j: nat)
    requires Keyed(cfg, keys) && i < |cfg.routes| && j < |cfg.routes| && NamesClash(cfg, i, j)
    ensures !AllKept(cfg, keys)
  {
    hide Built, Keyed, AllKept, WantedAt;
    var name := Key(cfg.routes[i]) + "-web";
    ClashIsShared(cfg, keys, i, j);
    if AllKept(cfg, keys) {
      KeptAt(cfg, keys, i, name);
      KeptAt(cfg, keys, j, name);
      assert false;
    }
  }

  lemma KeptAt(cfg: Config, keys: map<string, string>, i: nat, name: string)
    requires Keyed(cfg, keys) && i < |cfg.routes| && name in WantedAt(cfg, keys, i) && AllKept(cfg, keys)
    ensures var d := Built(cfg, keys, |cfg.routes|);
      name in d.routers && d.routers[name] == WantedAt(cfg, keys, i)[name]
  {
  }

  /** Two services of one app, the first with a domain: its domain router bears the name of the other one's path
      router, so one of the two is missing from the file. */
  lemma {:induction false} PathServiceClashes(keys: map<string, string>)
    ensures var a := ServiceRoute("app", "x-path", ["a.example.org"], "10.0.0.2", 80);
      var b := ServiceRoute("app", "x", [], "10.0.0.3", 80);
      var cfg := Config([a, b], "host.example.org", "/app/", "");
      && NamesClash(cfg, 0, 1) && Key(a) != Key(b)
      && (Keyed(cfg, keys) ==> !AllKept(cfg, keys))
  {
    var a := ServiceRoute("app", "x-path", ["a.example.org"], "10.0.0.2", 80);
    var b := ServiceRoute("app", "x", [], "10.0.0.3", 80);
    var cfg := Config([a, b], "host.example.org", "/app/", "");
    assert |Key(a)| != |Key(b)|;
    assert Key(a) == Key(b) + "-path";
    if Keyed(cfg, keys) {
      ClashLoses(cfg, keys, 0, 1);
    }
  }

  lemma ClashIsShared(cfg: Config, keys: map<string, string>, i: nat, j: nat)
    requires Keyed(cfg, keys) && i < |cfg.routes| && j < |cfg.routes| && NamesClash(cfg, i, j)
    ensures var name := Key(cfg.routes[i]) + "-web";
      name in WantedAt(cfg, keys, i) && name in WantedAt(cfg, keys, j)
      && WantedAt(cfg, keys, i)[name] != WantedAt(cfg, keys, j)[name]
  {
    hide Keyed, KeyAt, Key, NormalizePrefix, SortStrings;
    var a, b := Key(cfg.routes[i]), Key(cfg.routes[j]);
    assert a + "-web" == b + "-path-web";
    assert |a| == |b| + 5;
  }

  lemma {:induction false} NoClashKeeps(cfg: Config, keys: map<string, string>)
    requires Keyed(cfg, keys) && Clean(cfg, keys, |cfg.routes|)
    requires forall i, j | 0 <= i < |cfg.routes| && 0 <= j < |cfg.routes| :: !NamesClash(cfg, i, j)
    ensures AllKept(cfg, keys)
  {
    hide Built, Keyed, WantedAt, NamesClash, Clean;
    var n := |cfg.routes|;
    RoutersAreAskedFor(cfg, keys, n);
    forall i, name | 0 <= i < n && name in WantedAt(cfg, keys, i)
      ensures name in Built(cfg, keys, n).routers
      ensures Built(cfg, keys, n).routers[name] == WantedAt(cfg, keys, i)[name]
    {
      assert WantedAt(cfg, keys, i).Keys <= Built(cfg, keys, n).routers.Keys;
      var j := AskedBy(cfg, keys, name);
      SharedNameClashes(cfg, keys, i, j, name);
      WantedNames(cfg, keys, i, name);
      WantedNames(cfg, keys, j, name);
      CleanKeysDiffer(cfg, keys, i, j);
    }
  }

  lemma CleanKeysDiffer(cfg: Config, keys: map<string, string>, i: nat, j: nat)
    requires i < |cfg.routes| && j < |cfg.routes| && Keyed(cfg, keys) && Clean(cfg, keys, |cfg.routes|)
    requires Active(cfg.routes[i]) && Active(cfg.routes[j])
    ensures Key(cfg.routes[i]) == Key(cfg.routes[j]) <==> i == j
  {
    hide Key, KeyAt, PathRouting, Keyed;
    assert i < j ==> !CollidesAt(cfg, keys, i, j);
    assert j < i ==> !CollidesAt(cfg, keys, j, i);
  }

  // ---------------------------------------------------------------- a request reaches its service

  /** Each active route's backend and middlewares are the ones it asks for. */
  lemma {:induction false} PartsKept(cfg: Config, keys: map<string, string>, n: nat, i: nat)
    requires i < n <= |cfg.routes| && Keyed(cfg, keys) && Clean(cfg, keys, n) && Active(cfg.routes[i])
    ensures var r := cfg.routes[i]; var d := Built(cfg, keys, n);
      && Key(r) in d.services && d.services[Key(r)] == Backend(r.ip, r.port)
      && forall m | m in MiddlewaresAt(cfg, keys, i) ::
           m in d.middlewares && d.middlewares[m] == MiddlewaresAt(cfg, keys, i)[m]
  {
    hide Built, Keyed, MiddlewaresAt, Key;
    BuiltStep(cfg, keys, n);
    if i < n - 1 {
      PartsKept(cfg, keys, n - 1, i);
      assert !CollidesAt(cfg, keys, i, n - 1);
      MiddlewaresAreOwn(cfg, keys, i, n - 1);
    }
  }

  lemma MiddlewaresAreOwn(cfg: Config, keys: map<string, string>, i: nat, j: nat)
    requires i < |cfg.routes| && j < |cfg.routes| && Keyed(cfg, keys)
    requires Active(cfg.routes[i]) && Active(cfg.routes[j]) ==> Key(cfg.routes[i]) != Key(cfg.routes[j])
    ensures MiddlewaresAt(cfg, keys, i).Keys !! MiddlewaresAt(cfg, keys, j).Keys
  {
    hide Keyed, KeyAt, Key, NormalizePrefix;
    var a, b := Key(cfg.routes[i]), Key(cfg.routes[j]);
    SuffixesDiffer(a, b);
    SuffixesDiffer(b, a);
    CutTail(a, b, "-https");
    CutTail(a, b, "-strip");
  }

  /** With no name clash, any request below a route's path finds exactly one path router on the main entry point; it
      leads to that route's backend and strips the prefix down to the rest of the path. */
  lemma RequestIsServed(cfg: Config, keys: map<string, string>, i: nat, rest: string)
    requires PathKeys(cfg, keys) && Clean(cfg, keys, |cfg.routes|) && PathRouting(cfg)
    requires forall x, y | 0 <= x < |cfg.routes| && 0 <= y < |cfg.routes| :: !NamesClash(cfg, x, y)
    requires i < |cfg.routes| && Active(cfg.routes[i])
    ensures var r := cfg.routes[i];
      var d := Built(cfg, keys, |cfg.routes|);
      var stripped := NormalizePrefix(cfg.appPathPrefix) + KeyAt(cfg, keys, i);
      var path := stripped + "/" + rest;
      var entry := if cfg.certResolver == "" then "web" else "websecure";
      var name := PathRouterName(r, entry);
      && name in d.routers && d.routers[name].entry == entry && Matches(d.routers[name].rule, path)
      && (forall other | other in d.routers && d.routers[other].entry == entry ::
            Matches(d.routers[other].rule, path) ==> other == name)
      && d.routers[name].service in d.services && d.services[d.routers[name].service] == Backend(r.ip, r.port)
      && d.routers[name].middlewares == [Key(r) + "-strip"]
      && Key(r) + "-strip" in d.middlewares && d.middlewares[Key(r) + "-strip"] == StripPrefix(stripped)
  {
    hide Built, Keyed, KeyAt, Key, NormalizePrefix, Clean, PathKeys, NamesClash, SortStrings;
    KeysCover(cfg, keys);
    var r := cfg.routes[i];
    var d := Built(cfg, keys, |cfg.routes|);
    var stripped := NormalizePrefix(cfg.appPathPrefix) + KeyAt(cfg, keys, i);
    var path := stripped + "/" + rest;
    var entry := if cfg.certResolver == "" then "web" else "websecure";
    var name := PathRouterName(r, entry);
    AllKeptIffNoClash(cfg, keys);
    PartsKept(cfg, keys, |cfg.routes|, i);
    assert name in WantedAt(cfg, keys, i);
    forall other | other in d.routers && d.routers[other].entry == entry && Matches(d.routers[other].rule, path)
      ensures other == name
    {
      PathsDoNotOverlap(cfg, keys, other, name, path);
    }
  }

  /** A request for one of a route's domains: with no name clash there is a router on the main entry point that answers
      to exactly the route's domains, leads to the route's backend and changes nothing; with a certificate resolver it
      has its certificate, and the plain entry point redirects. */
  lemma DomainIsServed(cfg: Config, keys: map<string, string>, i: nat)
    requires PathKeys(cfg, keys) && Clean(cfg, keys, |cfg.routes|)
    requires forall x, y | 0 <= x < |cfg.routes| && 0 <= y < |cfg.routes| :: !NamesClash(cfg, x, y)
    requires i < |cfg.routes| && Active(cfg.routes[i]) && cfg.routes[i].domains != []
    ensures var r := cfg.routes[i];
      var d := Built(cfg, keys, |cfg.routes|);
      var secure := cfg.certResolver != "";
      var name := Key(r) + if secure then "-secure" else "-web";
      && name in d.routers && d.routers[name].entry == (if secure then "websecure" else "web")
      && d.routers[name].rule.HostRule? && (forall h :: h in d.routers[name].rule.hosts <==> h in r.domains)
      && d.routers[name].service in d.services && d.services[d.routers[name].service] == Backend(r.ip, r.port)
      && d.routers[name].middlewares == []
      && d.routers[name].tls == (if secure then Some(cfg.certResolver) else None)
      && (secure ==>
            && Key(r) + "-web" in d.routers && d.routers[Key(r) + "-web"].entry == "web"
            && d.routers[Key(r) + "-web"].rule == d.routers[name].rule
            && d.routers[Key(r) + "-web"].middlewares == [Key(r) + "-https"]
            && Key(r) + "-https" in d.middlewares && d.middlewares[Key(r) + "-https"] == RedirectToHttps)
  {
    hide Built, Keyed, KeyAt, Key, NormalizePrefix, Clean, PathKeys, NamesClash, SortStrings;
    KeysCover(cfg, keys);
    var r := cfg.routes[i];
    AllKeptIffNoClash(cfg, keys);
    PartsKept(cfg, keys, |cfg.routes|, i);
    SortKeepsElements(r.domains);
    DomainNames(cfg, keys, i);
  }

  lemma DomainNames(cfg: Config, keys: map<string, string>, i: nat)
    requires i < |cfg.routes| && Keyed(cfg, keys) && Active(cfg.routes[i]) && cfg.routes[i].domains != []
    ensures var r := cfg.routes[i];
      var w := WantedAt(cfg, keys, i);
      var hosts := HostRule(SortStrings(r.domains));
      if cfg.certResolver == "" then
        Key(r) + "-web" in w && w[Key(r) + "-web"] == Router(hosts, "web", Key(r), [], None)
      else
        && Key(r) + "-secure" in w
        && w[Key(r) + "-secure"] == Router(hosts, "websecure", Key(r), [], Some(cfg.certResolver))
        && Key(r) + "-web" in w && w[Key(r) + "-web"] == Router(hosts, "web", Key(r), [Key(r) + "-https"], None)
        && Key(r) + "-https" in MiddlewaresAt(cfg, keys, i)
        && MiddlewaresAt(cfg, keys, i)[Key(r) + "-https"] == RedirectToHttps
  {
    hide Key, KeyAt, NormalizePrefix, SortStrings;
    SuffixesDiffer(Key(cfg.routes[i]), Key(cfg.routes[i]));
    assert |Key(cfg.routes[i]) + "-web"| != |Key(cfg.routes[i]) + "-path-web"|;
    assert |Key(cfg.routes[i]) + "-secure"| != |Key(cfg.routes[i]) + "-path-secure"|;
  }

  // ---------------------------------------------------------------- nothing is served in the clear

  /** With a certificate resolver a router has its certificate or sends the browser on; without one it does
      neither. */
  ghost predicate Secure(cfg: Config, d: Dynamic, r: Router) {
    if cfg.certResolver == "" then r.entry == "web" && r.tls.None?
    else if r.entry == "websecure" then r.tls == Some(cfg.certResolver)
    else r.entry == "web" && r.tls.None?
         && exists m | m in r.middlewares :: HttpsName(m) && m in d.middlewares && d.middlewares[m] == RedirectToHttps
  }

  predicate HttpsName(m: string) {
    m != "" && m[|m| - 1] == 's'
  }

  /** Whatever collides: with a certificate resolver every router on the plain entry point redirects and every other one
      has the certificate. */
  lemma {:induction false} NothingInTheClear(cfg: Config, keys: map<string, string>, n: nat)
    requires n <= |cfg.routes| && Keyed(cfg, keys)
    ensures var d := Built(cfg, keys, n); forall name | name in d.routers :: Secure(cfg, d, d.routers[name])
    ensures cfg.certResolver == "" ==>
      forall m | m in Built(cfg, keys, n).middlewares :: Built(cfg, keys, n).middlewares[m] != RedirectToHttps
  {
    hide Keyed, KeyAt, WantedAt, MiddlewaresAt, ServiceAt, Secure;
    if n > 0 {
      NothingInTheClear(cfg, keys, n - 1);
      BuiltStep(cfg, keys, n);
      hide Built;
      var before, d := Built(cfg, keys, n - 1), Built(cfg, keys, n);
      WantedIsSecure(cfg, keys, n - 1, d);
      forall name | name in d.routers ensures Secure(cfg, d, d.routers[name]) {
        if name !in WantedAt(cfg, keys, n - 1) {
          StillSecure(cfg, keys, n - 1, before, d, before.routers[name]);
        }
      }
    }
  }

  lemma WantedIsSecure(cfg: Config, keys: map<string, string>, i: nat, d: Dynamic)
    requires i < |cfg.routes| && Keyed(cfg, keys)
    requires forall m | m in MiddlewaresAt(cfg, keys, i) ::
      m in d.middlewares && d.middlewares[m] == MiddlewaresAt(cfg, keys, i)[m]
    ensures var w := WantedAt(cfg, keys, i); forall name | name in w :: Secure(cfg, d, w[name])
    ensures cfg.certResolver == "" ==>
      forall m | m in MiddlewaresAt(cfg, keys, i) :: MiddlewaresAt(cfg, keys, i)[m] != RedirectToHttps
  {
    hide NormalizePrefix, Key, KeyAt, SortStrings;
    var k := Key(cfg.routes[i]);
    var mws := MiddlewaresAt(cfg, keys, i);
    SuffixesDiffer(k, k);
    assert Active(cfg.routes[i]) && cfg.certResolver != "" ==>
        k + "-https" in mws && mws[k + "-https"] == RedirectToHttps;
    assert [k + "-https"][0] == [k + "-strip", k + "-https"][1] == k + "-https";
    assert (k + "-https")[|k + "-https"| - 1] == 's';
  }

  /** A later route never takes a redirect away. */
  lemma StillSecure(cfg: Config, keys: map<string, string>, i: nat, before: Dynamic, d: Dynamic, r: Router)
    requires i < |cfg.routes| && Keyed(cfg, keys) && Secure(cfg, before, r)
    requires d.middlewares == before.middlewares + MiddlewaresAt(cfg, keys, i)
    ensures Secure(cfg, d, r)
  {
    HttpsRedirects(cfg, keys, i);
    hide MiddlewaresAt, Keyed, HttpsName;
  }

  lemma HttpsRedirects(cfg: Config, keys: map<string, string>, i: nat)
    requires i < |cfg.routes| && Keyed(cfg, keys)
    ensures forall m | m in MiddlewaresAt(cfg, keys, i) && HttpsName(m) ::
      MiddlewaresAt(cfg, keys, i)[m] == RedirectToHttps
  {
    hide Key, KeyAt, NormalizePrefix;
    var k := Key(cfg.routes[i]);
    assert (k + "-strip")[|k + "-strip"| - 1] == 'p';
  }

  // ---------------------------------------------------------------- within one app

  /** For the routes of a single app the path check never fires: only equal service keys are refused. */
  lemma {:induction false} OneAppNeedsNoPathCheck(cfg: Config, keys: map<string, string>, app: string, i: nat, j: nat)
    requires PathKeys(cfg, keys) && (forall r | r in cfg.routes :: r.app == app)
    requires i < |cfg.routes| && j < |cfg.routes|
    ensures CollidesAt(cfg, keys, i, j) <==>
      Active(cfg.routes[i]) && Active(cfg.routes[j]) && Key(cfg.routes[i]) == Key(cfg.routes[j])
  {
    hide PathKeys, KeyAt, PathRouting, PathKey, Key;
    OwnPathKey(cfg, keys, app, i);
    OwnPathKey(cfg, keys, app, j);
    assert cfg.routes[i] in cfg.routes && cfg.routes[j] in cfg.routes;
    SamePathSameKey(cfg.routes[i], cfg.routes[j]);
  }

  lemma SamePathSameKey(a: ServiceRoute, b: ServiceRoute)
    requires a.app == b.app
    ensures PathKey(a) == PathKey(b) ==> Key(a) == Key(b)
  {
    if a.name != b.name && (a.name == "web" || b.name == "web") {
      assert |PathKey(a)| != |PathKey(b)|;
    }
  }

  lemma {:induction false} OwnPathKey(cfg: Config, keys: map<string, string>, app: string, i: nat)
    requires PathKeys(cfg, keys) && (forall r | r in cfg.routes :: r.app == app) && i < |cfg.routes|
    ensures KeyAt(cfg, keys, i) == PathKey(cfg.routes[i])
  {
    hide PathKeys;
    var q := KeyOwner(cfg, keys, i);
    NamesFromIDs(q, cfg.routes[i]);
  }

  lemma NamesFromIDs(a: ServiceRoute, b: ServiceRoute)
    requires a.app == b.app && RouteID(a) == RouteID(b)
    ensures a.name == b.name
  {
    assert RouteID(a)[|a.app| + 1..] == a.name && RouteID(b)[|a.app| + 1..] == b.name;
  }

  // ---------------------------------------------------------------- the text of a rule

  function HostText(hosts: seq<string>): string
    requires hosts != []
  {
    "Host(`" + hosts[0] + "`)" + if |hosts| == 1 then "" else " || " + HostText(hosts[1..])
  }

  function RuleText(rule: Rule): string
    requires rule.HostRule? ==> rule.hosts != []
  {
    match rule
    case HostRule(hosts) => HostText(hosts)
    case PathRule(host, prefix) => "Host(`" + host + "`) && PathPrefix(`" + prefix + "`)"
  }

  /** What stands between the quotes of a rule's text. */
  function HostParts(lead: string, hosts: seq<string>): seq<string>
    decreases hosts
  {
    if hosts == [] then [")"]
    else [lead, hosts[0]] + HostParts(") || Host(", hosts[1..])
  }

  function RuleParts(rule: Rule): seq<string> {
    match rule
    case HostRule(hosts) => HostParts("Host(", hosts)
    case PathRule(host, prefix) => ["Host(", host, ") && PathPrefix(", prefix, ")"]
  }

  predicate Quoted(rule: Rule) {
    match rule
    case HostRule(hosts) => hosts != [] && forall h | h in hosts :: '`' !in h
    case PathRule(host, prefix) => '`' !in host && '`' !in prefix
  }

  lemma {:induction false} HostTextParts(hosts: seq<string>, lead: string)
    requires hosts != []
    ensures Join(HostParts(lead, hosts), '`') ==
            lead + "`" + hosts[0] + "`" + Join(HostParts(") || Host(", hosts[1..]), '`')
  {
    var rest := HostParts(") || Host(", hosts[1..]);
    assert HostParts(lead, hosts)[1..] == [hosts[0]] + rest;
    assert HostParts(lead, hosts)[1..][1..] == rest;
  }

  /** A rule's text is its parts, put between quotes. */
  lemma {:induction false} HostTextIsParts(hosts: seq<string>)
    requires hosts != []
    ensures "Host(" + "`" + hosts[0] + "`" + Join(HostParts(") || Host(", hosts[1..]), '`') == HostText(hosts)
  {
    hide Join, HostParts;
    if |hosts| == 1 {
      assert hosts[1..] == [];
      NoMoreHosts();
      Regroup("Host(" + "`" + hosts[0], "`", ")", "");
    } else {
      var rest := Join(HostParts(") || Host(", hosts[1..][1..]), '`');
      HostTextIsParts(hosts[1..]);
      HostTextParts(hosts[1..], ") || Host(");
      var tail := hosts[1] + "`" + rest;
      assert ") || Host(" + "`" + tail == ")" + " || " + ("Host(" + "`" + tail);
    }
  }

  lemma NoMoreHosts()
    ensures Join(HostParts(") || Host(", []), '`') == ")"
  {
  }

  lemma Regroup(a: string, b: string, c: string, d: string)
    ensures a + b + c + d == a + (b + c) + d
  {
  }

  lemma RuleTextIsParts(rule: Rule)
    requires Quoted(rule)
    ensures RuleText(rule) == Join(RuleParts(rule), '`') && Free(RuleParts(rule), '`')
  {
    match rule
    case HostRule(hosts) =>
      HostTextIsParts(hosts);
      HostTextParts(hosts, "Host(");
      HostPartsFree("Host(", hosts);
    case PathRule(host, prefix) =>
      hide Join;
      PathTextIsParts(host, prefix);
  }

  lemma PathTextIsParts(host: string, prefix: string)
    ensures RuleText(PathRule(host, prefix)) == Join(RuleParts(PathRule(host, prefix)), '`')
  {
    hide Join;
    JoinFive("Host(", host, ") && PathPrefix(", prefix, ")", '`');
    assert "Host(`" == "Host(" + "`" && "`) && PathPrefix(`" == "`" + ") && PathPrefix(" + "`" && "`)" == "`" + ")";
  }

  lemma JoinFive(a: string, b: string, c: string, d: string, e: string, sep: char)
    ensures Join([a, b, c, d, e], sep) == a + [sep] + b + [sep] + c + [sep] + d + [sep] + e
  {
    JoinStep([a, b, c, d, e], sep);
    assert [a, b, c, d, e][1..] == [b, c, d, e];
    JoinStep([b, c, d, e], sep);
    assert [b, c, d, e][1..] == [c, d, e];
    JoinStep([c, d, e], sep);
    assert [c, d, e][1..] == [d, e];
    JoinStep([d, e], sep);
    assert [d, e][1..] == [e];
  }

  lemma JoinStep(parts: seq<string>, sep: char)
    requires |parts| > 1
    ensures Join(parts, sep) == parts[0] + [sep] + Join(parts[1..], sep)
  {
  }

  lemma {:induction false} HostPartsFree(lead: string, hosts: seq<string>)
    requires '`' !in lead && forall h | h in hosts :: '`' !in h
    ensures Free(HostParts(lead, hosts), '`')
    decreases hosts
  {
    if hosts != [] {
      assert hosts[0] in hosts;
      HostPartsFree(") || Host(", hosts[1..]);
    }
  }

  lemma {:induction false} HostPartsDiffer(lead: string, a: seq<string>, b: seq<string>)
    requires HostParts(lead, a) == HostParts(lead, b)
    ensures a == b
    decreases a
  {
    if a == [] || b == [] {
      assert |HostParts(lead, a)| == |HostParts(lead, b)|;
    } else {
      var x, y := HostParts(lead, a), HostParts(lead, b);
      assert x[1] == a[0] && y[1] == b[0];
      assert x[2..] == HostParts(") || Host(", a[1..]) && y[2..] == HostParts(") || Host(", b[1..]);
      HostPartsDiffer(") || Host(", a[1..], b[1..]);
      assert a == [a[0]] + a[1..] && b == [b[0]] + b[1..];
    }
  }

  /** With no quote inside a host or prefix, the text of a rule determines the rule. */
  lemma RuleTextIsFaithful(a: Rule, b: Rule)
    requires Quoted(a) && Quoted(b)
    ensures RuleText(a) == RuleText(b) <==> a == b
  {
    if RuleText(a) == RuleText(b) {
      RuleTextIsParts(a);
      RuleTextIsParts(b);
      SplitOfJoin(RuleParts(a), '`');
      SplitOfJoin(RuleParts(b), '`');
      assert RuleParts(a) == RuleParts(b);
      SameParts(a, b);
    }
  }

  lemma SameParts(a: Rule, b: Rule)
    requires RuleParts(a) == RuleParts(b) && Quoted(a) && Quoted(b)
    ensures a == b
  {
    var p, q := RuleParts(a), RuleParts(b);
    if a.HostRule? && b.HostRule? {
      HostPartsDiffer("Host(", a.hosts, b.hosts);
    } else if a.PathRule? && b.PathRule? {
      assert p[1] == a.host && p[3] == a.prefix && q[1] == b.host && q[3] == b.prefix;
    } else if a.HostRule? {
      KindsDiffer(a, b);
      assert false;
    } else {
      KindsDiffer(b, a);
      assert false;
    }
  }

  lemma KindsDiffer(a: Rule, b: Rule)
    requires a.HostRule? && b.PathRule? && a.hosts != []
    ensures RuleParts(a) != RuleParts(b)
  {
    assert RuleParts(a)[2] == HostParts(") || Host(", a.hosts[1..])[0];
    assert RuleParts(b)[2] == ") && PathPrefix(";
    assert |") && PathPrefix("| == 16;
    assert RuleParts(b)[2][2] == '&';
    assert RuleParts(a)[2] == ")" || RuleParts(a)[2][2] == '|';
  }

  /** Validation keeps quotes out of every rule that is rendered. */
  lemma RenderedRulesAreQuoted(cfg: Config, keys: map<string, string>, name: string, parseIP: string -> bool)
    requires PathKeys(cfg, keys) && ValidInputs(cfg, parseIP)
    requires name in Built(cfg, keys, |cfg.routes|).routers
    ensures Quoted(Built(cfg, keys, |cfg.routes|).routers[name].rule)
  {
    hide Built, Asks, KeyAt, NormalizePrefix, PathKeys, ValidDomain, SortStrings, Keyed;
    KeysCover(cfg, keys);
    var router := Built(cfg, keys, |cfg.routes|).routers[name];
    var i := AskedBy(cfg, keys, name);
    var r := cfg.routes[i];
    PathRouterShape(cfg, keys, i, name, router);
    match router.rule {
      case PathRule(host, prefix) =>
        KeyHasNoSlash(cfg, keys, i);
        PrefixKeepsQuotable(cfg.appPathPrefix);
      case HostRule(hosts) =>
        SortKeepsElements(r.domains);
        assert r in cfg.routes && ValidRoute(r, parseIP);
        forall h | h in hosts ensures '`' !in h {
          DomainHasNoQuote(h);
        }
    }
  }

  lemma PrefixKeepsQuotable(p: string)
    requires '`' !in p
    ensures '`' !in NormalizePrefix(p)
  {
  }

  lemma DomainHasNoQuote(domain: string)
    requires ValidDomain(domain)
    ensures '`' !in domain
  {
    var labels := Split(domain, '.');
    forall i | 0 <= i < |labels| ensures '`' !in labels[i] {
    }
    SplitCovers(domain, '.', '`');
  }

  lemma {:induction false} SplitCovers(s: string, sep: char, c: char)
    requires c != sep && forall i | 0 <= i < |Split(s, sep)| :: c !in Split(s, sep)[i]
    ensures c !in s
  {
    if s != "" {
      var rest := Split(s[1..], sep);
      var parts := Split(s, sep);
      if s[0] == sep {
        assert forall i | 0 <= i < |rest| :: rest[i] == parts[i + 1];
      } else {
        assert parts[0] == [s[0]] + rest[0];
        assert forall i | 1 <= i < |rest| :: rest[i] == parts[i];
        assert s[0] == parts[0][0] && s[0] in parts[0];
      }
      SplitCovers(s[1..], sep, c);
    }
  }
}
