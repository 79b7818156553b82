/** Merging the managed routes into a live Caddy config that also holds other people's routes. */
module CaddyMerge {
  import opened Text
  import opened CaddyRoutes
  import opened CaddyJson

  // ---- Which live routes are managed ----

  /** The path a matcher asks for: an exact path hides a prefix even when it is blank. */
  function MatcherPath(m: JsonObject): (string, string) {
    var exact, prefix := FirstText(m, "path_exact"), FirstText(m, "path_prefix");
    if HasItems(m, "path_exact") then
      if Blank(exact) then ("host", "") else ("path_exact", TrimSpace(exact))
    else
      if Blank(prefix) then ("host", "") else ("path_prefix", TrimSpace(prefix))
  }

  /** The key under which a matcher serves one of its hosts. */
  function MatcherKey(m: JsonObject, host: string): string {
    var path := MatcherPath(m);
    RouteKey(HTTPRoute(host, path.0, path.1, false, "", 0, []))
  }

  predicate HasItems(m: JsonObject, key: string) {
    key in m && m[key].Array? && |m[key].items| > 0
  }

  /** The first element of a non-empty array member if it is a string, else blank. */
  function FirstText(m: JsonObject, key: string): string {
    if HasItems(m, key) && m[key].items[0].String? then m[key].items[0].s else ""
  }

  predicate MatcherHasKey(matcher: Json, key: string) {
    && matcher.Object?
    && "host" in matcher.members && matcher.members["host"].Array?
    && var hosts := matcher.members["host"].items;
       exists j :: 0 <= j < |hosts| && hosts[j].String? && MatcherKey(matcher.members, hosts[j].s) == key
  }

  /** The route's matchers, when it has the shape of a route. */
  function Matchers(route: Json): seq<Json> {
    if route.Object? && "match" in route.members && route.members["match"].Array?
    then route.members["match"].items else []
  }

  predicate HasKey(route: Json, key: string) {
    exists i :: 0 <= i < |Matchers(route)| && MatcherHasKey(Matchers(route)[i], key)
  }

  predicate Managed(route: Json, keys: set<string>) {
    exists key :: key in keys && HasKey(route, key)
  }

  /** What a matcher's path members say: a member that is no list, or an empty one, says nothing, and an
      exact path is looked at before a prefix, even a blank one. */
  predicate PathSays(m: JsonObject, matchType: string, matchValue: string) {
    if "path_exact" in m && m["path_exact"].Array? && m["path_exact"].items != [] then
      var first := m["path_exact"].items[0];
      if first.String? && !Blank(first.s) then matchType == "path_exact" && matchValue == TrimSpace(first.s)
      else matchType == "host" && matchValue == ""
    else if "path_prefix" in m && m["path_prefix"].Array? && m["path_prefix"].items != [] then
      var first := m["path_prefix"].items[0];
      if first.String? && !Blank(first.s) then matchType == "path_prefix" && matchValue == TrimSpace(first.s)
      else matchType == "host" && matchValue == ""
    else matchType == "host" && matchValue == ""
  }

  /** A host that a live route lists in a matcher, and the path of that matcher. */
  predicate ListsHost(route: Json, host: string, matchType: string, matchValue: string) {
    && route.Object? && "match" in route.members && route.members["match"].Array?
    && exists matcher :: matcher in route.members["match"].items
                         && matcher.Object? && "host" in matcher.members && matcher.members["host"].Array?
                         && String(host) in matcher.members["host"].items
                         && PathSays(matcher.members, matchType, matchValue)
  }

  /** A live route is managed exactly when it lists a host, with a path, that gives one of the keys. */
  lemma ManagedIff(route: Json, keys: set<string>)
    ensures Managed(route, keys) <==>
              exists host, matchType, matchValue ::
                ListsHost(route, host, matchType, matchValue) && RouteKey(HTTPRoute(host, matchType, matchValue, false, "", 0, [])) in keys
  {
    hide RouteKey;
    if Managed(route, keys) {
      var key :| key in keys && HasKey(route, key);
      var i :| 0 <= i < |Matchers(route)| && MatcherHasKey(Matchers(route)[i], key);
      HostOfKey(route, Matchers(route)[i], key);
    }
    if host, matchType, matchValue :|
         ListsHost(route, host, matchType, matchValue) && RouteKey(HTTPRoute(host, matchType, matchValue, false, "", 0, [])) in keys {
      KeyOfHost(route, host, matchType, matchValue);
    }
  }

  lemma PathIs(m: JsonObject, matchType: string, matchValue: string)
    ensures PathSays(m, matchType, matchValue) <==> MatcherPath(m) == (matchType, matchValue)
  {
    assert Blank("");
    hide TrimSpace;
  }

  lemma HostOfKey(route: Json, matcher: Json, key: string)
    requires matcher in Matchers(route) && MatcherHasKey(matcher, key)
    ensures exists host, matchType, matchValue ::
              ListsHost(route, host, matchType, matchValue) && RouteKey(HTTPRoute(host, matchType, matchValue, false, "", 0, [])) == key
  {
    hide RouteKey, TrimSpace, PathSays, MatcherPath;
    var hosts := matcher.members["host"].items;
    var j :| 0 <= j < |hosts| && hosts[j].String? && MatcherKey(matcher.members, hosts[j].s) == key;
    var path := MatcherPath(matcher.members);
    assert hosts[j] in hosts && hosts[j] == String(hosts[j].s);
    PathIs(matcher.members, path.0, path.1);
    assert ListsHost(route, hosts[j].s, path.0, path.1);
  }

  lemma KeyOfHost(route: Json, host: string, matchType: string, matchValue: string)
    requires ListsHost(route, host, matchType, matchValue)
    ensures HasKey(route, RouteKey(HTTPRoute(host, matchType, matchValue, false, "", 0, [])))
  {
    hide RouteKey, TrimSpace, PathSays, MatcherPath;
    var matcher :| matcher in route.members["match"].items
                   && matcher.Object? && "host" in matcher.members && matcher.members["host"].Array?
                   && String(host) in matcher.members["host"].items && PathSays(matcher.members, matchType, matchValue);
    PathIs(matcher.members, matchType, matchValue);
    var i :| 0 <= i < |Matchers(route)| && Matchers(route)[i] == matcher;
    var j :| 0 <= j < |matcher.members["host"].items| && matcher.members["host"].items[j] == String(host);
    assert MatcherHasKey(Matchers(route)[i], RouteKey(HTTPRoute(host, matchType, matchValue, false, "", 0, [])));
  }

  method ReadMatcherPath(m: JsonObject) returns (matchType: string, matchValue: string)
    ensures (matchType, matchValue) == MatcherPath(m)
  {
    matchType, matchValue := "host", "";
    if "path_exact" in m && m["path_exact"].Array? && |m["path_exact"].items| > 0 {
      var value := m["path_exact"].items[0];
      if value.String? && TrimSpace(value.s) != "" {
        matchType, matchValue := "path_exact", TrimSpace(value.s);
      }
    } else if "path_prefix" in m && m["path_prefix"].Array? && |m["path_prefix"].items| > 0 {
      var value := m["path_prefix"].items[0];
      if value.String? && TrimSpace(value.s) != "" {
        matchType, matchValue := "path_prefix", TrimSpace(value.s);
      }
    }
  }

  method MatcherMatchesManagedKeys(matcher: Json, managedSet: set<string>) returns (managed: bool)
    ensures managed <==> exists key :: key in managedSet && MatcherHasKey(matcher, key)
  {
    if !matcher.Object? || "host" !in matcher.members || !matcher.members["host"].Array? {
      return false;
    }
    var m := matcher.members;
    var hosts := m["host"].items;
    var matchType, matchValue := ReadMatcherPath(m);
    for j := 0 to |hosts|
      invariant forall n :: 0 <= n < j && hosts[n].String? ==> MatcherKey(m, hosts[n].s) !in managedSet
    {
      if hosts[j].String? {
        var key := RouteKey(HTTPRoute(hosts[j].s, matchType, matchValue, false, "", 0, []));
        assert key == MatcherKey(m, hosts[j].s);
        if key in managedSet {
          assert MatcherHasKey(matcher, key);
          return true;
        }
      }
    }
    return false;
  }

  method RouteMatchesManagedKeys(route: Json, managedKeys: seq<string>) returns (managed: bool)
    ensures managed <==> Managed(route, set k | k in managedKeys)
  {
    if !route.Object? || "match" !in route.members || !route.members["match"].Array? {
      return false;
    }
    var matchers := route.members["match"].items;
    var managedSet := set k | k in managedKeys;
    for i := 0 to |matchers|
      invariant forall n, key :: 0 <= n < i && key in managedSet ==> !MatcherHasKey(matchers[n], key)
    {
      var found := MatcherMatchesManagedKeys(matchers[i], managedSet);
      if found {
        ghost var key :| key in managedSet && MatcherHasKey(Matchers(route)[i], key);
        assert HasKey(route, key);
        return true;
      }
    }
    return false;
  }

  // ---- Merging ----

  datatype MergeOutcome =
    | Merged(root: JsonObject)
    | NotAnObject
    | NilMap  // the body "null" decodes to a nil map, and storing into it panics

  /** The routes that carry none of the keys, in their order. */
  function Keep(routes: seq<Json>, keys: set<string>): seq<Json> {
    if routes == [] then []
    else if Managed(routes[|routes| - 1], keys) then Keep(routes[..|routes| - 1], keys)
    else Keep(routes[..|routes| - 1], keys) + [routes[|routes| - 1]]
  }

  /** The object under a key; anything else there is replaced by an empty object. */
  function EnsureMap(root: JsonObject, key: string): JsonObject {
    if key in root && root[key].Object? then root[key].members else map[]
  }

  function ServerIn(root: JsonObject): JsonObject {
    EnsureMap(EnsureMap(EnsureMap(EnsureMap(root, "apps"), "http"), "servers"), DEFAULT_SERVER)
  }

  function WithServer(root: JsonObject, server: JsonObject): JsonObject {
    var apps := EnsureMap(root, "apps");
    var http := EnsureMap(apps, "http");
    var servers := EnsureMap(http, "servers");
    root["apps" := Object(apps["http" := Object(http["servers" := Object(servers[DEFAULT_SERVER := Object(server)])])])]
  }

  function RoutesOfServer(server: JsonObject): seq<Json> {
    if "routes" in server && server["routes"].Array? then server["routes"].items else []
  }

  function LiveIn(root: JsonObject): seq<Json> {
    RoutesOfServer(ServerIn(root))
  }

  function MergedServer(server: JsonObject, desired: seq<Json>, keys: set<string>): JsonObject {
    var listening := if "listen" in server then server else server["listen" := EncodeStrings(DEFAULT_LISTEN)];
    listening["routes" := Array(Keep(RoutesOfServer(server), keys) + desired)]
  }

  function MergeInto(root: JsonObject, desired: seq<Json>, keys: set<string>): JsonObject {
    WithServer(root, MergedServer(ServerIn(root), desired, keys))
  }

  /** The rules that a list of routes puts into the live config. */
  function DesiredRules(routes: seq<HTTPRoute>): seq<Json> {
    EncodeRules(RulesOf(SortRoutes(routes)))
  }

  /** The decoded current config: no body counts as an empty one. */
  function RootOf(current: Option<Json>): MergeOutcome {
    match current
    case None => Merged(map[])
    case Some(Object(m)) => Merged(m)
    case Some(Null) => NilMap
    case Some(_) => NotAnObject
  }

  function MergeRules(current: Option<Json>, desired: seq<Json>, keys: set<string>): MergeOutcome {
    var root := RootOf(current);
    if root.Merged? then Merged(MergeInto(root.root, desired, keys)) else root
  }

  function MergeOf(current: Option<Json>, routes: seq<HTTPRoute>, keys: set<string>): MergeOutcome {
    MergeRules(current, DesiredRules(routes), keys)
  }

  method PreserveUnmanaged(server: JsonObject, managedKeys: seq<string>) returns (preserved: seq<Json>)
    ensures preserved == Keep(RoutesOfServer(server), set k | k in managedKeys)
  {
    preserved := [];
    if "routes" in server && server["routes"].Array? {
      var existing := server["routes"].items;
      for n := 0 to |existing|
        invariant preserved == Keep(existing[..n], set k | k in managedKeys)
      {
        assert existing[..n + 1][..n] == existing[..n];
        var managed := RouteMatchesManagedKeys(existing[n], managedKeys);
        if !managed {
          preserved := preserved + [existing[n]];
        }
      }
      assert existing[..|existing|] == existing;
    }
  }

  method EncodeDesired(routes: seq<HTTPRoute>) returns (desiredRoutes: seq<Json>)
    ensures desiredRoutes == DesiredRules(routes)
  {
    var desired := BuildConfig(routes);
    var rules := desired.servers[DEFAULT_SERVER].routes;
    desiredRoutes := [];
    for n := 0 to |rules|
      invariant desiredRoutes == EncodeRules(rules)[..n]
    {
      desiredRoutes := desiredRoutes + [EncodeRule(rules[n])];
    }
  }

  method MergeManagedRoutes(current: Option<Json>, routes: seq<HTTPRoute>, managedKeys: seq<string>)
      returns (outcome: MergeOutcome)
    ensures outcome == MergeOf(current, routes, set k | k in managedKeys)
  {
    var root: JsonObject := map[];
    match current {
      case None =>
      case Some(Object(m)) => root := m;
      case Some(Null) => return NilMap;
      case Some(_) => return NotAnObject;
    }

    var apps := EnsureMap(root, "apps");
    var httpApp := EnsureMap(apps, "http");
    var servers := EnsureMap(httpApp, "servers");
    var server := EnsureMap(servers, DEFAULT_SERVER);

    if "listen" !in server {
      server := server["listen" := EncodeStrings([":80", ":443"])];
    }
    var preserved := PreserveUnmanaged(server, managedKeys);
    var desiredRoutes := EncodeDesired(routes);
    server := server["routes" := Array(preserved + desiredRoutes)];
    assert server == MergedServer(ServerIn(root), desiredRoutes, set k | k in managedKeys);

    servers := servers[DEFAULT_SERVER := Object(server)];
    httpApp := httpApp["servers" := Object(servers)];
    apps := apps["http" := Object(httpApp)];
    root := root["apps" := Object(apps)];
    outcome := Merged(root);
  }

  // ---- What merging leaves alone ----

  /** The value at a path of member names. */
  function At(j: Json, path: seq<string>): Option<Json> {
    if path == [] then Some(j)
    else if j.Object? && path[0] in j.members then At(j.members[path[0]], path[1..])
    else None
  }

  const SERVER_PATH := ["apps", "http", "servers", DEFAULT_SERVER]

  lemma ServerOfMerge(root: JsonObject, server: JsonObject)
    ensures ServerIn(WithServer(root, server)) == server
  {
  }

  lemma AtStep(m: JsonObject, key: string, path: seq<string>)
    requires path != []
    ensures At(Object(m), [key] + path) == At(Object(EnsureMap(m, key)), path)
  {
    assert ([key] + path)[1..] == path;
  }

  lemma AtServer(root: JsonObject, path: seq<string>)
    requires path != []
    ensures At(Object(root), SERVER_PATH + path) == At(Object(ServerIn(root)), path)
  {
    var apps := EnsureMap(root, "apps");
    var http := EnsureMap(apps, "http");
    var servers := EnsureMap(http, "servers");
    hide At, EnsureMap;
    AtStep(servers, DEFAULT_SERVER, path);
    AtStep(http, "servers", [DEFAULT_SERVER] + path);
    AtStep(apps, "http", ["servers"] + ([DEFAULT_SERVER] + path));
    AtStep(root, "apps", ["http"] + (["servers"] + ([DEFAULT_SERVER] + path)));
    assert SERVER_PATH + path == ["apps"] + (["http"] + (["servers"] + ([DEFAULT_SERVER] + path)));
  }

  /** Changing one member of an object changes no path that starts elsewhere. */
  lemma AtBeside(m: JsonObject, key: string, value: Json, path: seq<string>)
    requires path != [] && path[0] != key
    ensures At(Object(m[key := value]), path) == At(Object(m), path)
  {
  }

  lemma BesideServer(root: JsonObject, server: JsonObject, path: seq<string>)
    requires !(path <= SERVER_PATH) && !(SERVER_PATH <= path)
    ensures At(Object(WithServer(root, server)), path) == At(Object(root), path)
  {
    var apps := EnsureMap(root, "apps");
    var http := EnsureMap(apps, "http");
    var servers := EnsureMap(http, "servers");
    var servers' := servers[DEFAULT_SERVER := Object(server)];
    var http' := http["servers" := Object(servers')];
    var apps' := apps["http" := Object(http')];
    if path[0] == "apps" {
      var p1 := path[1..];
      assert path == ["apps"] + p1 && p1 != [];
      AtStep(root, "apps", p1);
      AtStep(root["apps" := Object(apps')], "apps", p1);
      if p1[0] == "http" {
        var p2 := p1[1..];
        assert p1 == ["http"] + p2 && p2 != [];
        AtStep(apps, "http", p2);
        AtStep(apps', "http", p2);
        if p2[0] == "servers" {
          var p3 := p2[1..];
          assert p2 == ["servers"] + p3 && p3 != [];
          AtStep(http, "servers", p3);
          AtStep(http', "servers", p3);
          assert p3[0] != DEFAULT_SERVER;
          AtBeside(servers, DEFAULT_SERVER, Object(server), p3);
        } else {
          AtBeside(http, "servers", Object(servers'), p2);
        }
      } else {
        AtBeside(apps, "http", Object(http'), p1);
      }
    } else {
      AtBeside(root, "apps", Object(apps'), path);
    }
  }

  /** Merging changes nothing but the routes of srv0, and its listen addresses when it has none. The
      objects on the way to srv0 are kept or created; whatever else stands there is replaced. */
  lemma MergeFrame(root: JsonObject, desired: seq<Json>, keys: set<string>, path: seq<string>)
    requires !(path <= SERVER_PATH)
    requires !(SERVER_PATH + ["routes"] <= path)
    ensures At(Object(MergeInto(root, desired, keys)), path) ==
            if At(Object(root), path).None? && SERVER_PATH + ["listen"] <= path
               && At(Object(root), SERVER_PATH + ["listen"]).None?
            then At(EncodeStrings(DEFAULT_LISTEN), path[5..])
            else At(Object(root), path)
  {
    var server := ServerIn(root);
    var server' := MergedServer(server, desired, keys);
    var root' := MergeInto(root, desired, keys);
    if SERVER_PATH <= path {
      var rest := path[4..];
      assert path == SERVER_PATH + rest && rest != [];
      AtServer(root, rest);
      AtServer(root', rest);
      ServerOfMerge(root, server');
      AtServer(root, ["listen"]);
      assert rest == [rest[0]] + rest[1..];
      assert SERVER_PATH + [rest[0]] <= path;
      assert rest[0] != "routes";
      assert rest[0] == "listen" <==> SERVER_PATH + ["listen"] <= path;
      assert rest[1..] == path[5..];
    } else {
      assert !(SERVER_PATH + ["listen"] <= path);
      BesideServer(root, server', path);
    }
  }

  // ---- Keeping and matching ----

  lemma {:induction false} KeepAppend(a: seq<Json>, b: seq<Json>, keys: set<string>)
    ensures Keep(a + b, keys) == Keep(a, keys) + Keep(b, keys)
  {
    if b == [] {
      assert a + b == a;
    } else {
      assert (a + b)[..|a + b| - 1] == a + b[..|b| - 1];
      KeepAppend(a, b[..|b| - 1], keys);
    }
  }

  lemma {:induction false} KeepNone(routes: seq<Json>, keys: set<string>)
    requires forall r :: r in routes ==> Managed(r, keys)
    ensures Keep(routes, keys) == []
  {
    if routes != [] {
      KeepNone(routes[..|routes| - 1], keys);
    }
  }

  lemma {:induction false} KeepAll(routes: seq<Json>, keys: set<string>)
    requires forall r :: r in routes ==> !Managed(r, keys)
    ensures Keep(routes, keys) == routes
  {
    if routes != [] {
      KeepAll(routes[..|routes| - 1], keys);
    }
  }

  lemma {:induction false} KeepMembers(routes: seq<Json>, keys: set<string>)
    ensures forall r :: r in Keep(routes, keys) <==> r in routes && !Managed(r, keys)
  {
    if routes != [] {
      KeepMembers(routes[..|routes| - 1], keys);
      assert routes == routes[..|routes| - 1] + [routes[|routes| - 1]];
    }
  }

  /** Filtering by one set of keys and then by another is filtering by both. */
  lemma {:induction false} KeepTwice(routes: seq<Json>, a: set<string>, b: set<string>)
    ensures Keep(Keep(routes, a), b) == Keep(routes, a + b)
  {
    if routes != [] {
      var front, last := routes[..|routes| - 1], routes[|routes| - 1];
      KeepTwice(front, a, b);
      assert Managed(last, a + b) <==> Managed(last, a) || Managed(last, b);
      if !Managed(last, a) {
        KeepAppend(Keep(front, a), [last], b);
        assert Keep([last], b) == if Managed(last, b) then [] else [last];
      }
    }
  }

  lemma LiveAfterMerge(root: JsonObject, desired: seq<Json>, keys: set<string>)
    ensures LiveIn(MergeInto(root, desired, keys)) == Keep(LiveIn(root), keys) + desired
  {
    ServerOfMerge(root, MergedServer(ServerIn(root), desired, keys));
  }

  lemma WithServerTwice(root: JsonObject, a: JsonObject, b: JsonObject)
    ensures WithServer(WithServer(root, a), b) == WithServer(root, b)
  {
    var apps := EnsureMap(root, "apps");
    var http := EnsureMap(apps, "http");
    var servers := EnsureMap(http, "servers");
    var servers' := servers[DEFAULT_SERVER := Object(a)];
    assert servers'[DEFAULT_SERVER := Object(b)] == servers[DEFAULT_SERVER := Object(b)];
    var http' := http["servers" := Object(servers')];
    var value := Object(servers[DEFAULT_SERVER := Object(b)]);
    assert http'["servers" := value] == http["servers" := value];
    var apps' := apps["http" := Object(http')];
    var value' := Object(http["servers" := value]);
    assert apps'["http" := value'] == apps["http" := value'];
  }

  lemma KeepIsFixpoint(routes: seq<Json>, desired: seq<Json>, keys: set<string>)
    requires forall r :: r in desired ==> Managed(r, keys)
    ensures Keep(Keep(routes, keys) + desired, keys) == Keep(routes, keys)
  {
    KeepAppend(Keep(routes, keys), desired, keys);
    KeepNone(desired, keys);
    KeepTwice(routes, keys, keys);
    assert keys + keys == keys;
  }

  lemma ServerIsFixpoint(server: JsonObject, desired: seq<Json>, keys: set<string>)
    requires Keep(Keep(RoutesOfServer(server), keys) + desired, keys) == Keep(RoutesOfServer(server), keys)
    ensures MergedServer(MergedServer(server, desired, keys), desired, keys) == MergedServer(server, desired, keys)
  {
    var once := MergedServer(server, desired, keys);
    assert RoutesOfServer(once) == Keep(RoutesOfServer(server), keys) + desired;
    assert "listen" in once;
    assert once["routes" := once["routes"]] == once;
  }

  /** Merging again changes nothing, when every desired rule carries one of the keys. */
  lemma MergeIsFixpoint(root: JsonObject, desired: seq<Json>, keys: set<string>)
    requires forall r :: r in desired ==> Managed(r, keys)
    ensures MergeInto(MergeInto(root, desired, keys), desired, keys) == MergeInto(root, desired, keys)
  {
    var server' := MergedServer(ServerIn(root), desired, keys);
    ServerOfMerge(root, server');
    KeepIsFixpoint(LiveIn(root), desired, keys);
    ServerIsFixpoint(ServerIn(root), desired, keys);
    WithServerTwice(root, server', server');
  }

  // ---- The keys of a built rule ----

  lemma RouteKeyDependsOn(a: HTTPRoute, b: HTTPRoute)
    requires a.host == b.host && a.matchType == b.matchType && a.matchValue == b.matchValue
    ensures RouteKey(a) == RouteKey(b)
  {
  }

  /** The rule built from a well-formed route carries that route's key and no other. */
  lemma RuleHasItsKey(route: HTTPRoute, key: string)
    requires WellFormed(route)
    ensures HasKey(EncodeRule(RuleOf(route)), key) <==> key == RouteKey(route)
  {
    hide RouteKey, HandlersOf, EncodeHandlerJson;
    var rule := EncodeRule(RuleOf(route));
    var m := MatchOf(route);
    var matcher := EncodeMatch(m);
    assert Matchers(rule) == [matcher];
    assert HasKey(rule, key) <==> MatcherHasKey(Matchers(rule)[0], key);
    var hosts := matcher.members["host"].items;
    assert hosts == [String(route.host)];
    WellFormedIsNormal(route);
    assert MatcherPath(matcher.members) == (route.matchType, route.matchValue);
    RouteKeyDependsOn(HTTPRoute(route.host, route.matchType, route.matchValue, false, "", 0, []), route);
    assert MatcherKey(matcher.members, route.host) == RouteKey(route);
    assert MatcherHasKey(matcher, key) <==> MatcherKey(matcher.members, hosts[0].s) == key;
  }

  lemma DesiredRule(routes: seq<HTTPRoute>, rule: Json)
    requires rule in DesiredRules(routes)
    ensures exists r :: r in routes && rule == EncodeRule(RuleOf(r))
  {
    var sorted := SortRoutes(routes);
    var i :| 0 <= i < |sorted| && DesiredRules(routes)[i] == rule;
    SortRoutesIsSortOf(routes);
    assert sorted[i] in sorted;
  }

  /** The caller passed the key of every route it wants. */
  predicate Covered(routes: seq<HTTPRoute>, keys: set<string>) {
    forall r :: r in routes ==> RouteKey(r) in keys
  }

  lemma DesiredAreManaged(routes: seq<HTTPRoute>, keys: set<string>)
    requires AllWellFormed(routes) && Covered(routes, keys)
    ensures forall rule :: rule in DesiredRules(routes) ==> Managed(rule, keys)
  {
    forall rule | rule in DesiredRules(routes) ensures Managed(rule, keys) {
      DesiredRule(routes, rule);
      var r :| r in routes && rule == EncodeRule(RuleOf(r));
      RuleHasItsKey(r, RouteKey(r));
    }
  }

  lemma MergeRulesTwice(current: Option<Json>, desired: seq<Json>, keys: set<string>)
    requires forall r :: r in desired ==> Managed(r, keys)
    requires MergeRules(current, desired, keys).Merged?
    ensures var once := MergeRules(current, desired, keys);
            MergeRules(Some(Object(once.root)), desired, keys) == once
  {
    MergeIsFixpoint(RootOf(current).root, desired, keys);
  }

  /** The second of two equal reconciles finds nothing to load. */
  lemma MergeTwiceIsOnce(current: Option<Json>, routes: seq<HTTPRoute>, keys: set<string>)
    requires AllWellFormed(routes) && Covered(routes, keys)
    requires MergeOf(current, routes, keys).Merged?
    ensures var once := MergeOf(current, routes, keys);
            MergeOf(Some(Object(once.root)), routes, keys) == once
  {
    DesiredAreManaged(routes, keys);
    MergeRulesTwice(current, DesiredRules(routes), keys);
  }
}
