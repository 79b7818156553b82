/** What a built config does to a request: which upstreams it reaches, and with which path. */
module CaddyServing {
  import opened Text
  import opened Sequences
  import opened Sorting
  import opened CaddyRoutes
  import opened CaddyJson

  // ---- What handlers do ----

  /** Every occurrence replaced, from the left; an empty text is never found. */
  function ReplaceAll(s: string, find: string, replace: string): string
    decreases |s|
  {
    if find == "" || |s| < |find| then s
    else if HasPrefix(s, find) then replace + ReplaceAll(s[|find|..], find, replace)
    else [s[0]] + ReplaceAll(s[1..], find, replace)
  }

  function WithoutPrefix(s: string, prefix: string): string {
    if HasPrefix(s, prefix) then s[|prefix|..] else s
  }

  function Substituted(path: string, substitutions: seq<URISubstring>): string
    decreases |substitutions|
  {
    if substitutions == [] then path
    else Substituted(ReplaceAll(path, substitutions[0].find, substitutions[0].replace), substitutions[1..])
  }

  /** A request that was passed on: where to, with which path, and the encodings its answer may have. */
  datatype Served = Served(upstreams: seq<string>, path: string, encodings: set<string>)

  /** Handlers work on a request in their order, until one of them is a proxy. */
  function Serve(handle: seq<Handler>, path: string, encodings: set<string>): Option<Served> {
    if handle == [] then None
    else
      var h, rest := handle[0], handle[1..];
      if h.handler == "reverse_proxy" then Some(Served(h.upstreams, path, encodings))
      else if h.handler == "rewrite" then Serve(rest, Substituted(WithoutPrefix(path, h.stripPathPrefix), h.uriSubstring), encodings)
      else if h.handler == "encode" then Serve(rest, path, encodings + h.encodings)
      else Serve(rest, path, encodings)
  }

  // ---- What a route promises ----

  /** The path that a route passes on: without its prefix where it strips, and with its prefix replaced
      where it rewrites. */
  function Forwarded(route: HTTPRoute, path: string): string {
    var rest := if route.stripPrefix then WithoutPrefix(path, route.matchValue) else path;
    if Blank(route.rewritePrefix) then rest else ReplaceAll(rest, route.matchValue, route.rewritePrefix)
  }

  /** A request that was passed on goes to a route's upstreams, with the path that it promises. */
  predicate ServedBy(served: Served, route: HTTPRoute, path: string) {
    && multiset(served.upstreams) == multiset(route.upstreams)
    && served.path == Forwarded(route, path)
    && served.encodings == {"gzip", "zstd"}
  }

  lemma ServeProxy(upstreams: seq<string>, path: string, encodings: set<string>)
    ensures Serve([Handler("reverse_proxy", {}, upstreams, "", [])], path, encodings) == Some(Served(upstreams, path, encodings))
  {
  }

  lemma RewriteServes(route: HTTPRoute, path: string)
    requires WellFormed(route)
    ensures Substituted(WithoutPrefix(path, RewriteHandler(route).stripPathPrefix), RewriteHandler(route).uriSubstring) == Forwarded(route, path)
  {
    var rest := if route.stripPrefix then WithoutPrefix(path, route.matchValue) else path;
    assert WithoutPrefix(path, "") == path;
    var one := URISubstring(route.matchValue, route.rewritePrefix);
    assert [one][1..] == [];
    assert Substituted(rest, [one]) == Substituted(ReplaceAll(rest, one.find, one.replace), []);
  }

  /** The rule of a well-formed route takes every request that the route is meant for, for good, and
      passes it on as the route promises. */
  lemma RuleServes(route: HTTPRoute, host: string, path: string)
    requires WellFormed(route) && RouteMatches(route, host, path)
    ensures var rule := RuleOf(route);
            && rule.terminal && RuleMatches(rule, host, path)
            && var served := Serve(rule.handle, path, {});
               served.Some? && ServedBy(served.value, route, path)
  {
    RuleMatchesItsRoute(route, host, path);
    RewriteServes(route, path);
    SortStringsIsSortOf(route.upstreams);
    hide RouteMatches, RuleMatches, WellFormed, SortStrings, Substituted, ReplaceAll, Blank;
    var handle, encode, proxy := HandlersOf(route), EncodeHandler(), Handler("reverse_proxy", {}, SortStrings(route.upstreams), "", []);
    ServeProxy(SortStrings(route.upstreams), Forwarded(route, path), {"gzip", "zstd"});
    assert Serve(handle, path, {}) == Serve(handle[1..], path, {} + encode.encodings);
    assert {} + encode.encodings == {"gzip", "zstd"};
    if route.stripPrefix || !Blank(route.rewritePrefix) {
      assert handle[1..] == [RewriteHandler(route)] + [proxy];
      assert handle[1..][1..] == [proxy];
    } else {
      assert handle[1..] == [proxy];
    }
  }

  /** Every built config listens where it should, and passes every request that some route is meant for
      to the upstreams of a most specific such route, with the path that it promises; it passes on no
      other. */
  lemma ConfigServes(routes: seq<HTTPRoute>, host: string, path: string) returns (i: int, route: HTTPRoute)
    requires AllWellFormed(routes) && exists r :: r in routes && RouteMatches(r, host, path)
    ensures ConfigOf(routes).servers.Keys == {"srv0"} && ConfigOf(routes).servers["srv0"].listen == [":80", ":443"]
    ensures var rules := ConfigOf(routes).servers["srv0"].routes;
            && IsFirstMatch(rules, i, host, path) && rules[i].terminal
            && route in routes && RouteMatches(route, host, path)
            && (forall r :: r in routes && RouteMatches(r, host, path) ==> Precedes(route, r))
            && var served := Serve(rules[i].handle, path, {});
               served.Some? && ServedBy(served.value, route, path)
  {
    hide WellFormed, RouteMatches, RuleMatches, Precedes, RuleOf, Serve, ServedBy;
    var sorted := SortRoutes(routes);
    SortRoutesIsSortOf(routes);
    AnsweredIffMatched(routes, sorted, host, path);
    i :| IsFirstMatch(RulesOf(sorted), i, host, path);
    FirstMatchIsMostSpecific(routes, sorted, i, host, path);
    route := sorted[i];
    RuleServes(route, host, path);
  }

  // ---- Rewriting a prefix ----

  predicate Occurs(find: string, s: string) {
    exists i :: 0 <= i <= |s| && HasPrefix(s[i..], find)
  }

  lemma {:induction false} NothingToReplace(s: string, find: string, replace: string)
    requires !Occurs(find, s)
    ensures ReplaceAll(s, find, replace) == s
  {
    if find != "" && |s| >= |find| {
      assert s[0..] == s;
      forall i | 0 <= i <= |s[1..]| ensures !HasPrefix(s[1..][i..], find) {
        assert s[1..][i..] == s[i + 1..];
      }
      NothingToReplace(s[1..], find, replace);
    }
  }

  /** A prefix that occurs nowhere else is replaced, and the rest of the path stays. */
  lemma PrefixIsRewritten(route: HTTPRoute, host: string, rest: string)
    requires WellFormed(route) && route.matchType == "path_prefix" && !route.stripPrefix && !Blank(route.rewritePrefix)
    requires host == route.host && !Occurs(route.matchValue, rest)
    ensures RouteMatches(route, host, route.matchValue + rest)
    ensures Forwarded(route, route.matchValue + rest) == route.rewritePrefix + rest
  {
    hide TrimSpace;
    assert (route.matchValue + rest)[|route.matchValue|..] == rest;
    NothingToReplace(rest, route.matchValue, route.rewritePrefix);
  }

  /** A stripped prefix leaves the rest of the path. */
  lemma PrefixIsStripped(route: HTTPRoute, host: string, rest: string)
    requires WellFormed(route) && route.matchType == "path_prefix" && route.stripPrefix && Blank(route.rewritePrefix)
    requires host == route.host
    ensures RouteMatches(route, host, route.matchValue + rest)
    ensures Forwarded(route, route.matchValue + rest) == rest
  {
    hide TrimSpace;
    assert (route.matchValue + rest)[|route.matchValue|..] == rest;
  }

  // ---- What Caddy is told ----

  function TextList(value: string): Json {
    Array([String(value)])
  }

  function EncodeJson(): Json {
    Object(map["handler" := String("encode"), "encodings" := Object(map["gzip" := Object(map[]), "zstd" := Object(map[])])])
  }

  function ProxyJson(upstream: string): Json {
    Object(map["handler" := String("reverse_proxy"), "upstreams" := Array([Object(map["dial" := String(upstream)])])])
  }

  lemma HandlersAsJson(upstream: string)
    ensures EncodeHandlerJson(EncodeHandler()) == EncodeJson()
    ensures EncodeHandlerJson(Handler("reverse_proxy", {}, [upstream], "", [])) == ProxyJson(upstream)
  {
    assert EncodeEncodings({"gzip", "zstd"}) == Object(map["gzip" := Object(map[]), "zstd" := Object(map[])]);
    assert EncodeList([upstream], EncodeUpstream) == Array([Object(map["dial" := String(upstream)])]);
  }

  lemma RewriteAsJson(route: HTTPRoute)
    requires WellFormed(route) && route.matchValue != ""
    ensures route.stripPrefix && Blank(route.rewritePrefix) ==>
              EncodeHandlerJson(RewriteHandler(route)) ==
              Object(map["handler" := String("rewrite"), "strip_path_prefix" := String(route.matchValue)])
    ensures !route.stripPrefix && !Blank(route.rewritePrefix) ==>
              EncodeHandlerJson(RewriteHandler(route)) ==
              Object(map["handler" := String("rewrite"),
                         "uri_substring" := Array([Object(map["find" := String(route.matchValue), "replace" := String(route.rewritePrefix)])])])
  {
    hide TrimSpace;
    if !Blank(route.rewritePrefix) {
      assert route.rewritePrefix != "" by { BlankEmpty(); }
      var u := URISubstring(route.matchValue, route.rewritePrefix);
      assert EncodeList([u], EncodeSubstring) == Array([EncodeSubstring(u)]);
    }
  }

  lemma BlankEmpty()
    ensures Blank("")
  {
  }

  /** The handlers of a route to one upstream, as they are written. */
  lemma HandleAsJson(route: HTTPRoute, upstream: string)
    requires WellFormed(route) && route.upstreams == [upstream]
    ensures EncodeList(HandlersOf(route), EncodeHandlerJson) ==
            Array([EncodeJson()] + (if route.stripPrefix || !Blank(route.rewritePrefix) then [EncodeHandlerJson(RewriteHandler(route))] else [])
                  + [ProxyJson(upstream)])
  {
    SortedIsFixed([upstream], StrLess);
    HandlersAsJson(upstream);
    var proxy := Handler("reverse_proxy", {}, [upstream], "", []);
    var rewrites := if route.stripPrefix || !Blank(route.rewritePrefix) then [RewriteHandler(route)] else [];
    assert HandlersOf(route) == [EncodeHandler()] + rewrites + [proxy];
    hide EncodeHandlerJson, EncodeJson, ProxyJson, RewriteHandler, EncodeHandler, HandlersOf, WellFormed, Blank;
    assert Map(HandlersOf(route), EncodeHandlerJson) ==
           [EncodeHandlerJson(EncodeHandler())] + (if rewrites == [] then [] else [EncodeHandlerJson(RewriteHandler(route))]) + [EncodeHandlerJson(proxy)];
  }

  /** A prefix route that strips, as it is written. */
  lemma StrippingRuleAsJson(host: string, prefix: string, upstream: string, priority: int)
    requires WellFormed(HTTPRoute(host, "path_prefix", prefix, true, "", priority, [upstream]))
    ensures EncodeRule(RuleOf(HTTPRoute(host, "path_prefix", prefix, true, "", priority, [upstream]))) ==
            Object(map[
              "match" := Array([Object(map["host" := TextList(host), "path_prefix" := TextList(prefix)])]),
              "handle" := Array([EncodeJson(),
                                 Object(map["handler" := String("rewrite"), "strip_path_prefix" := String(prefix)]),
                                 ProxyJson(upstream)]),
              "terminal" := Bool(true)])
  {
    var route := HTTPRoute(host, "path_prefix", prefix, true, "", priority, [upstream]);
    BlankEmpty();
    RewriteAsJson(route);
    HandleAsJson(route, upstream);
    assert EncodeStrings([host]) == TextList(host) && EncodeStrings([prefix]) == TextList(prefix);
    assert EncodeMatch(MatchOf(route)) == Object(map["host" := TextList(host), "path_prefix" := TextList(prefix)]);
    RuleAsJson(route);
    ThreeHandlers(EncodeJson(), EncodeHandlerJson(RewriteHandler(route)), ProxyJson(upstream));
  }

  /** An exact route that rewrites, as it is written. */
  lemma RewritingRuleAsJson(host: string, path: string, target: string, upstream: string, priority: int)
    requires WellFormed(HTTPRoute(host, "path_exact", path, false, target, priority, [upstream])) && !Blank(target)
    ensures EncodeRule(RuleOf(HTTPRoute(host, "path_exact", path, false, target, priority, [upstream]))) ==
            Object(map[
              "match" := Array([Object(map["host" := TextList(host), "path_exact" := TextList(path)])]),
              "handle" := Array([EncodeJson(),
                                 Object(map["handler" := String("rewrite"),
                                            "uri_substring" := Array([Object(map["find" := String(path), "replace" := String(target)])])]),
                                 ProxyJson(upstream)]),
              "terminal" := Bool(true)])
  {
    var route := HTTPRoute(host, "path_exact", path, false, target, priority, [upstream]);
    RewriteAsJson(route);
    HandleAsJson(route, upstream);
    assert EncodeStrings([host]) == TextList(host) && EncodeStrings([path]) == TextList(path);
    assert EncodeMatch(MatchOf(route)) == Object(map["host" := TextList(host), "path_exact" := TextList(path)]);
    RuleAsJson(route);
    ThreeHandlers(EncodeJson(), EncodeHandlerJson(RewriteHandler(route)), ProxyJson(upstream));
  }

  lemma ThreeHandlers(a: Json, b: Json, c: Json)
    ensures [a] + [b] + [c] == [a, b, c]
  {
  }

  lemma RuleAsJson(route: HTTPRoute)
    ensures EncodeRule(RuleOf(route)) ==
            Object(map["match" := Array([EncodeMatch(MatchOf(route))]),
                       "handle" := EncodeList(HandlersOf(route), EncodeHandlerJson),
                       "terminal" := Bool(true)])
  {
    hide EncodeMatch, EncodeHandlerJson;
    assert EncodeList([MatchOf(route)], EncodeMatch) == Array([EncodeMatch(MatchOf(route))]);
  }
}
