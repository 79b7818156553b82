/** The routes the controller manages, their order, and the Caddy config built from them. */
module CaddyRoutes {
  import opened Text
  import opened Sequences
  import opened Sorting

  datatype HTTPRoute = HTTPRoute(
    host: string,
    matchType: string,
    matchValue: string,
    stripPrefix: bool,
    rewritePrefix: string,
    priority: int,
    upstreams: seq<string>)

  datatype Match = Match(host: seq<string>, pathPrefix: seq<string>, pathExact: seq<string>)

  datatype URISubstring = URISubstring(find: string, replace: string)

  datatype Handler = Handler(
    handler: string,
    encodings: set<string>,
    upstreams: seq<string>,
    stripPathPrefix: string,
    uriSubstring: seq<URISubstring>)

  datatype RouteRule = RouteRule(matches: seq<Match>, handle: seq<Handler>, terminal: bool)

  datatype Server = Server(listen: seq<string>, routes: seq<RouteRule>)

  datatype Config = Config(servers: map<string, Server>)

  const DEFAULT_SERVER := "srv0"
  const DEFAULT_LISTEN := [":80", ":443"]

  // ---- Keys and order ----

  function NormalizedMatchType(value: string): string {
    var t := TrimSpace(value);
    if t == "path_prefix" || t == "path_exact" then t else "host"
  }

  function RouteKey(route: HTTPRoute): string {
    Join([TrimSpace(ToLower(route.host)), NormalizedMatchType(route.matchType), TrimSpace(route.matchValue)], "|")
  }

  function MatcherSummary(route: HTTPRoute): string {
    var t := NormalizedMatchType(route.matchType);
    if t == "path_prefix" then "prefix " + TrimSpace(route.matchValue)
    else if t == "path_exact" then "exact " + TrimSpace(route.matchValue)
    else "catch-all host"
  }

  /** Summaries are the same exactly for matchers that are. */
  lemma SummaryTellsMatcher(a: HTTPRoute, b: HTTPRoute)
    ensures MatcherSummary(a) == MatcherSummary(b) <==>
              && NormalizedMatchType(a.matchType) == NormalizedMatchType(b.matchType)
              && (NormalizedMatchType(a.matchType) == "host" || TrimSpace(a.matchValue) == TrimSpace(b.matchValue))
  {
    var (s, t) := (MatcherSummary(a), MatcherSummary(b));
    assert s[0] == (if NormalizedMatchType(a.matchType) == "path_prefix" then 'p' else if NormalizedMatchType(a.matchType) == "path_exact" then 'e' else 'c');
    assert t[0] == (if NormalizedMatchType(b.matchType) == "path_prefix" then 'p' else if NormalizedMatchType(b.matchType) == "path_exact" then 'e' else 'c');
    if s == t && s[0] == 'p' {
      assert s[7..] == TrimSpace(a.matchValue) && t[7..] == TrimSpace(b.matchValue);
    } else if s == t && s[0] == 'e' {
      assert s[6..] == TrimSpace(a.matchValue) && t[6..] == TrimSpace(b.matchValue);
    }
  }

  function RouteSpecificity(route: HTTPRoute): nat {
    var t := NormalizedMatchType(route.matchType);
    if t == "path_exact" then 2 else if t == "path_prefix" then 1 else 0
  }

  function ValueLength(route: HTTPRoute): nat {
    |TrimSpace(route.matchValue)|
  }

  /** What the order of two routes depends on. */
  datatype Rank = Rank(host: string, specificity: nat, length: nat, priority: int, summary: string)

  function RankOf(route: HTTPRoute): Rank {
    Rank(route.host, RouteSpecificity(route), ValueLength(route), route.priority, MatcherSummary(route))
  }

  predicate RankLess(a: Rank, b: Rank) {
    if a.host != b.host then StrLess(a.host, b.host)
    else if a.specificity != b.specificity then a.specificity > b.specificity
    else if a.length != b.length then a.length > b.length
    else if a.priority != b.priority then a.priority < b.priority
    else StrLess(a.summary, b.summary)
  }

  predicate RouteLess(a: HTTPRoute, b: HTTPRoute) {
    RankLess(RankOf(a), RankOf(b))
  }

  lemma StrLessTriple(a: string, b: string, c: string)
    ensures !StrLess(a, a)
    ensures StrLess(a, b) && StrLess(b, c) ==> StrLess(a, c)
    ensures StrLess(a, c) ==> StrLess(a, b) || StrLess(b, c)
  {
    StrLessTotalOrder();
  }

  lemma RankLessTriple(a: Rank, b: Rank, c: Rank)
    ensures !RankLess(a, a)
    ensures RankLess(a, b) && RankLess(b, c) ==> RankLess(a, c)
    ensures RankLess(a, c) ==> RankLess(a, b) || RankLess(b, c)
  {
    StrLessTriple(a.host, b.host, c.host);
    StrLessTriple(b.host, a.host, b.host);
    StrLessTriple(a.summary, b.summary, c.summary);
    StrLessTotal(a.host, b.host);
  }

  lemma RouteLessTriple(a: HTTPRoute, b: HTTPRoute, c: HTTPRoute)
    ensures !RouteLess(a, a)
    ensures RouteLess(a, b) && RouteLess(b, c) ==> RouteLess(a, c)
    ensures RouteLess(a, c) ==> RouteLess(a, b) || RouteLess(b, c)
  {
    RankLessTriple(RankOf(a), RankOf(b), RankOf(c));
  }

  /** The comparison given to sort.Slice is one it accepts. */
  lemma RouteLessIsStrictWeakOrder()
    ensures StrictWeakOrder(RouteLess)
  {
    forall a, b, c
      ensures !RouteLess(a, a)
      ensures RouteLess(a, b) && RouteLess(b, c) ==> RouteLess(a, c)
      ensures RouteLess(a, c) ==> RouteLess(a, b) || RouteLess(b, c)
    {
      RouteLessTriple(a, b, c);
    }
  }

  function SortRoutes(routes: seq<HTTPRoute>): seq<HTTPRoute> {
    Sort(routes, RouteLess)
  }

  function SortStrings(values: seq<string>): seq<string> {
    Sort(values, StrLess)
  }

  lemma SortRoutesIsSortOf(routes: seq<HTTPRoute>)
    ensures SortOf(SortRoutes(routes), routes, RouteLess)
    ensures |SortRoutes(routes)| == |routes|
    ensures forall r :: r in SortRoutes(routes) <==> r in routes
  {
    RouteLessIsStrictWeakOrder();
    SortIsSortOf(routes, RouteLess);
    MultisetMembers(SortRoutes(routes), routes);
  }

  lemma StrLessIsTotalOrder()
    ensures StrictTotalOrder(StrLess) && StrictWeakOrder(StrLess)
  {
    StrLessTotalOrder();
    TotalIsWeak(StrLess);
  }

  lemma SortStringsIsSortOf(values: seq<string>)
    ensures SortOf(SortStrings(values), values, StrLess)
    ensures |SortStrings(values)| == |values|
    ensures forall v :: v in SortStrings(values) <==> v in values
  {
    StrLessIsTotalOrder();
    SortIsSortOf(values, StrLess);
    MultisetMembers(SortStrings(values), values);
  }

  lemma SortStringsIdempotent(values: seq<string>)
    ensures SortStrings(SortStrings(values)) == SortStrings(values)
  {
    SortStringsIsSortOf(values);
    SortedIsFixed(SortStrings(values), StrLess);
  }

  // ---- Building the config ----

  function EncodeHandler(): Handler {
    Handler("encode", {"gzip", "zstd"}, [], "", [])
  }

  function RewriteHandler(route: HTTPRoute): Handler {
    Handler("rewrite", {}, [],
            if route.stripPrefix then route.matchValue else "",
            if Blank(route.rewritePrefix) then [] else [URISubstring(route.matchValue, route.rewritePrefix)])
  }

  function HandlersOf(route: HTTPRoute): seq<Handler> {
    [EncodeHandler()]
    + (if route.stripPrefix || !Blank(route.rewritePrefix) then [RewriteHandler(route)] else [])
    + [Handler("reverse_proxy", {}, SortStrings(route.upstreams), "", [])]
  }

  function MatchOf(route: HTTPRoute): Match {
    Match([route.host],
          if route.matchType == "path_prefix" then [route.matchValue] else [],
          if route.matchType == "path_exact" then [route.matchValue] else [])
  }

  function RuleOf(route: HTTPRoute): RouteRule {
    RouteRule([MatchOf(route)], HandlersOf(route), true)
  }

  function RulesOf(routes: seq<HTTPRoute>): (rules: seq<RouteRule>)
    ensures |rules| == |routes|
  {
    Map(routes, RuleOf)
  }

  /** What every built config is: one server that holds one rule per route, in the sorted order. */
  function ConfigOf(routes: seq<HTTPRoute>): Config {
    Config(map[DEFAULT_SERVER := Server(DEFAULT_LISTEN, RulesOf(SortRoutes(routes)))])
  }

  method BuildRule(route: HTTPRoute) returns (rule: RouteRule)
    ensures rule == RuleOf(route)
  {
    var upstreams := SortStrings(route.upstreams);

    var match_ := Match([route.host], [], []);
    if route.matchType == "path_prefix" {
      match_ := match_.(pathPrefix := [route.matchValue]);
    } else if route.matchType == "path_exact" {
      match_ := match_.(pathExact := [route.matchValue]);
    }

    var handlers := [Handler("encode", {"gzip", "zstd"}, [], "", [])];
    if route.stripPrefix || TrimSpace(route.rewritePrefix) != "" {
      var rewrite := Handler("rewrite", {}, [], "", []);
      if route.stripPrefix {
        rewrite := rewrite.(stripPathPrefix := route.matchValue);
      }
      if TrimSpace(route.rewritePrefix) != "" {
        rewrite := rewrite.(uriSubstring := [URISubstring(route.matchValue, route.rewritePrefix)]);
      }
      handlers := handlers + [rewrite];
    }
    handlers := handlers + [Handler("reverse_proxy", {}, upstreams, "", [])];
    assert handlers == HandlersOf(route);

    rule := RouteRule([match_], handlers, true);
  }

  method BuildConfig(routes: seq<HTTPRoute>) returns (config: Config)
    ensures config == ConfigOf(routes)
  {
    var sortedRoutes := SortRoutes(routes);
    var serverRoutes: seq<RouteRule> := [];
    for n := 0 to |sortedRoutes|
      invariant serverRoutes == RulesOf(sortedRoutes)[..n]
    {
      var rule := BuildRule(sortedRoutes[n]);
      serverRoutes := serverRoutes + [rule];
    }
    assert serverRoutes == RulesOf(sortedRoutes);
    config := Config(map[DEFAULT_SERVER := Server(DEFAULT_LISTEN, serverRoutes)]);
  }

  // ---- Well-formed routes ----

  /** The routes that projects expand to: see ProjectRoutes.ExpandedRoutesWellFormed. */
  predicate WellFormed(route: HTTPRoute) {
    && route.matchType in ["host", "path_prefix", "path_exact"]
    && (route.matchType == "host" ==> route.matchValue == "" && !route.stripPrefix)
    && (route.matchType != "host" ==> Trimmed(route.matchValue) && HasPrefix(route.matchValue, "/"))
    && Trimmed(route.rewritePrefix)
    && |route.upstreams| >= 1
    && (forall u :: u in route.upstreams ==> !Blank(u))
  }

  predicate AllWellFormed(routes: seq<HTTPRoute>) {
    forall r :: r in routes ==> WellFormed(r)
  }

  lemma WellFormedIsNormal(route: HTTPRoute)
    requires WellFormed(route)
    ensures NormalizedMatchType(route.matchType) == route.matchType
    ensures TrimSpace(route.matchValue) == route.matchValue
    ensures TrimSpace(route.rewritePrefix) == route.rewritePrefix
    ensures (route.matchValue == "") == (route.matchType == "host")
  {
    assert "host"[0] == 'h' && "path_prefix"[0] == 'p' && "path_exact"[0] == 'p';
    assert "host"[3] == 't' && "path_prefix"[10] == 'x' && "path_exact"[9] == 't';
    TrimCleanIsIdentity(route.matchType, IsSpace);
    TrimCleanIsIdentity(route.matchValue, IsSpace);
    TrimCleanIsIdentity(route.rewritePrefix, IsSpace);
  }

  // ---- First match ----

  predicate MatcherAccepts(m: Match, host: string, path: string) {
    && host in m.host
    && (m.pathPrefix == [] || exists p | p in m.pathPrefix :: HasPrefix(path, p))
    && (m.pathExact == [] || path in m.pathExact)
  }

  /** A rule takes a request that one of its matchers accepts. */
  predicate RuleMatches(rule: RouteRule, host: string, path: string) {
    exists m | m in rule.matches :: MatcherAccepts(m, host, path)
  }

  /** The requests that a route is meant for. */
  predicate RouteMatches(route: HTTPRoute, host: string, path: string) {
    && host == route.host
    && (route.matchType == "path_prefix" ==> HasPrefix(path, route.matchValue))
    && (route.matchType == "path_exact" ==> path == route.matchValue)
  }

  lemma RuleMatchesItsRoute(route: HTTPRoute, host: string, path: string)
    ensures RuleMatches(RuleOf(route), host, path) <==> RouteMatches(route, host, path)
  {
    var rule, m := RuleOf(route), MatchOf(route);
    assert m in rule.matches;
    assert RuleMatches(rule, host, path) <==> MatcherAccepts(m, host, path);
    if route.matchType == "path_prefix" {
      assert m.pathPrefix == [route.matchValue];
      assert route.matchValue in m.pathPrefix;
    }
  }

  /** a is served before b: exact over prefix over host, then the longer value, then the priority. */
  predicate Precedes(a: HTTPRoute, b: HTTPRoute) {
    || RouteSpecificity(a) > RouteSpecificity(b)
    || (RouteSpecificity(a) == RouteSpecificity(b) && |a.matchValue| > |b.matchValue|)
    || (RouteSpecificity(a) == RouteSpecificity(b) && |a.matchValue| == |b.matchValue| && a.priority <= b.priority)
  }

  lemma NotAfterMeansPrecedes(a: HTTPRoute, b: HTTPRoute)
    requires WellFormed(a) && WellFormed(b) && a.host == b.host
    requires !RouteLess(b, a)
    ensures Precedes(a, b)
  {
    WellFormedIsNormal(a);
    WellFormedIsNormal(b);
    var ra, rb := RankOf(a), RankOf(b);
    assert ra.length == |a.matchValue| && rb.length == |b.matchValue|;
    assert !RankLess(rb, ra);
  }

  lemma {:induction false} SamePrefixLess(prefix: string, a: string, b: string)
    requires StrLess(a, b)
    ensures StrLess(prefix + a, prefix + b)
  {
    if prefix == "" {
      assert prefix + a == a && prefix + b == b;
    } else {
      assert (prefix + a)[1..] == prefix[1..] + a && (prefix + b)[1..] == prefix[1..] + b;
      SamePrefixLess(prefix[1..], a, b);
    }
  }

  lemma SummaryOrder(a: HTTPRoute, b: HTTPRoute)
    requires WellFormed(a) && WellFormed(b) && RouteSpecificity(a) == RouteSpecificity(b) && StrLess(a.matchValue, b.matchValue)
    ensures StrLess(MatcherSummary(a), MatcherSummary(b))
  {
    WellFormedIsNormal(a);
    WellFormedIsNormal(b);
    hide TrimSpace;
    StrLessIrreflexive(a.matchValue);
    SamePrefixLess("prefix ", a.matchValue, b.matchValue);
    SamePrefixLess("exact ", a.matchValue, b.matchValue);
  }

  /** Sorted routes come by host; those of one host in the order in which they are to be served; and those
      that this leaves open by their values. */
  lemma SortedMeans(routes: seq<HTTPRoute>, i: nat, j: nat)
    requires AllWellFormed(routes) && i < j < |SortRoutes(routes)|
    ensures var a, b := SortRoutes(routes)[i], SortRoutes(routes)[j];
            && !StrLess(b.host, a.host)
            && (a.host == b.host ==> Precedes(a, b))
            && (a.host == b.host && a.matchType == b.matchType && |a.matchValue| == |b.matchValue| && a.priority == b.priority ==>
                  !StrLess(b.matchValue, a.matchValue))
  {
    SortRoutesIsSortOf(routes);
    hide WellFormed, MatcherSummary, RouteSpecificity, ValueLength, SortRoutes, StrLess;
    var a, b := SortRoutes(routes)[i], SortRoutes(routes)[j];
    assert a in SortRoutes(routes) && b in SortRoutes(routes);
    assert !RouteLess(b, a);
    StrLessIrreflexive(a.host);
    SameLengths(a, b);
    if a.host == b.host {
      NotAfterMeansPrecedes(a, b);
    }
    if a.matchType == b.matchType && StrLess(b.matchValue, a.matchValue) {
      SummaryOrder(b, a);
    }
  }

  lemma SameLengths(a: HTTPRoute, b: HTTPRoute)
    requires WellFormed(a) && WellFormed(b)
    ensures ValueLength(a) == |a.matchValue| && ValueLength(b) == |b.matchValue|
    ensures a.matchType == b.matchType ==> RouteSpecificity(a) == RouteSpecificity(b)
  {
    WellFormedIsNormal(a);
    WellFormedIsNormal(b);
  }

  predicate IsFirstMatch(rules: seq<RouteRule>, i: int, host: string, path: string) {
    && 0 <= i < |rules|
    && RuleMatches(rules[i], host, path)
    && forall j | 0 <= j < i :: !RuleMatches(rules[j], host, path)
  }

  /** Whatever sort.Slice does with ties, the rule that answers a request was built from a most
      specific matching route, and from one of least priority among those. */
  lemma FirstMatchIsMostSpecific(routes: seq<HTTPRoute>, sorted: seq<HTTPRoute>, i: int, host: string, path: string)
    requires AllWellFormed(routes)
    requires SortOf(sorted, routes, RouteLess)
    requires IsFirstMatch(RulesOf(sorted), i, host, path)
    ensures sorted[i] in routes && RouteMatches(sorted[i], host, path)
    ensures forall r :: r in routes && RouteMatches(r, host, path) ==> Precedes(sorted[i], r)
  {
    MultisetMembers(sorted, routes);
    var first := sorted[i];
    assert first in sorted;
    RuleMatchesItsRoute(first, host, path);
    forall r | r in routes && RouteMatches(r, host, path) ensures Precedes(first, r) {
      assert r in sorted;
      var j :| 0 <= j < |sorted| && sorted[j] == r;
      RuleMatchesItsRoute(r, host, path);
      assert i <= j by {
        assert RulesOf(sorted)[j] == RuleOf(r);
      }
      if i == j {
        assert Precedes(first, first);
      } else {
        assert !RouteLess(sorted[j], sorted[i]);
        NotAfterMeansPrecedes(first, r);
      }
    }
  }

  lemma {:induction false} LeastMatch(rules: seq<RouteRule>, n: nat, host: string, path: string) returns (i: nat)
    requires n < |rules| && RuleMatches(rules[n], host, path)
    ensures IsFirstMatch(rules, i, host, path)
  {
    i := n;
    while exists j :: 0 <= j < i && RuleMatches(rules[j], host, path)
      invariant i < |rules| && RuleMatches(rules[i], host, path)
      decreases i
    {
      var j :| 0 <= j < i && RuleMatches(rules[j], host, path);
      i := j;
    }
  }

  /** A request is answered by some rule exactly when some route is meant for it. */
  lemma AnsweredIffMatched(routes: seq<HTTPRoute>, sorted: seq<HTTPRoute>, host: string, path: string)
    requires SortOf(sorted, routes, RouteLess)
    ensures (exists i :: IsFirstMatch(RulesOf(sorted), i, host, path))
            <==> (exists r :: r in routes && RouteMatches(r, host, path))
  {
    MultisetMembers(sorted, routes);
    var rules := RulesOf(sorted);
    if i :| IsFirstMatch(rules, i, host, path) {
      RuleMatchesItsRoute(sorted[i], host, path);
      assert sorted[i] in sorted;
    }
    if r :| r in routes && RouteMatches(r, host, path) {
      assert r in sorted;
      var n :| 0 <= n < |sorted| && sorted[n] == r;
      RuleMatchesItsRoute(r, host, path);
      assert rules[n] == RuleOf(r);
      var i := LeastMatch(rules, n, host, path);
    }
  }
}
