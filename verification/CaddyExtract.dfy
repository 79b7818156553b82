/** Reading the HTTP routes back out of a live Caddy config. */
module CaddyExtract {
  import opened Text
  import opened Sequences
  import opened Sorting
  import opened CaddyRoutes
  import opened CaddyJson

  // ---- One rule ----

  datatype MatcherView = MatcherView(hosts: seq<string>, matchType: string, matchValue: string)

  function ReadMatcher(view: MatcherView, m: Match): MatcherView {
    var view := view.(hosts := view.hosts + m.host);
    if |m.pathExact| > 0 && !Blank(m.pathExact[0])
    then view.(matchType := "path_exact", matchValue := TrimSpace(m.pathExact[0]))
    else if |m.pathPrefix| > 0 && !Blank(m.pathPrefix[0])
    then view.(matchType := "path_prefix", matchValue := TrimSpace(m.pathPrefix[0]))
    else view
  }

  /** All hosts, and the path of the last matcher that has a non-blank one. */
  function ReadMatchers(matches: seq<Match>): MatcherView {
    if matches == [] then MatcherView([], "host", "")
    else ReadMatcher(ReadMatchers(matches[..|matches| - 1]), matches[|matches| - 1])
  }

  datatype HandlerView = HandlerView(upstreams: seq<string>, stripPrefix: bool, rewritePrefix: string)

  function NonBlank(values: seq<string>): seq<string> {
    if values == [] then []
    else
      var front, last := NonBlank(values[..|values| - 1]), values[|values| - 1];
      if Blank(last) then front else front + [last]
  }

  function ReadHandler(view: HandlerView, h: Handler): HandlerView {
    if h.handler == "reverse_proxy" then view.(upstreams := view.upstreams + NonBlank(h.upstreams))
    else if h.handler == "rewrite" then
      view.(stripPrefix := view.stripPrefix || !Blank(h.stripPathPrefix),
            rewritePrefix := if |h.uriSubstring| > 0 && !Blank(h.uriSubstring[0].replace)
                             then TrimSpace(h.uriSubstring[0].replace) else view.rewritePrefix)
    else view
  }

  function ReadHandlers(handle: seq<Handler>): HandlerView {
    if handle == [] then HandlerView([], false, "")
    else ReadHandler(ReadHandlers(handle[..|handle| - 1]), handle[|handle| - 1])
  }

  /** One route for each host. */
  function RoutesOn(hosts: seq<string>, m: MatcherView, h: HandlerView, upstreams: seq<string>): (routes: seq<HTTPRoute>)
    ensures |routes| == |hosts|
  {
    seq(|hosts|, i requires 0 <= i < |hosts| => HTTPRoute(hosts[i], m.matchType, m.matchValue, h.stripPrefix, h.rewritePrefix, 0, upstreams))
  }

  /** One route per host, when the rule has hosts and proxies somewhere. */
  function RuleRoutes(rule: RouteRule): seq<HTTPRoute> {
    var m, h := ReadMatchers(rule.matches), ReadHandlers(rule.handle);
    if m.hosts == [] || h.upstreams == [] then []
    else RoutesOn(SortStrings(m.hosts), m, h, SortStrings(h.upstreams))
  }

  function Collected(rules: seq<RouteRule>): seq<HTTPRoute> {
    if rules == [] then [] else Collected(rules[..|rules| - 1]) + RuleRoutes(rules[|rules| - 1])
  }

  datatype ExtractError = Undecodable

  function Extracted(current: Option<Json>): Result<seq<HTTPRoute>, ExtractError> {
    if current.None? then Ok([]) else
    var decoded := DecodeConfig(current.value);
    if decoded.None? then Err(Undecodable)
    else if DEFAULT_SERVER !in decoded.value.servers then Ok([])
    else Ok(SortRoutes(Collected(decoded.value.servers[DEFAULT_SERVER].routes)))
  }

  method ReadRuleMatchers(matches: seq<Match>) returns (hosts: seq<string>, matchType: string, matchValue: string)
    ensures MatcherView(hosts, matchType, matchValue) == ReadMatchers(matches)
  {
    hosts, matchType, matchValue := [], "host", "";
    for n := 0 to |matches|
      invariant MatcherView(hosts, matchType, matchValue) == ReadMatchers(matches[..n])
    {
      assert matches[..n + 1][..n] == matches[..n];
      var m := matches[n];
      hosts := hosts + m.host;
      if |m.pathExact| > 0 && TrimSpace(m.pathExact[0]) != "" {
        matchType, matchValue := "path_exact", TrimSpace(m.pathExact[0]);
      } else if |m.pathPrefix| > 0 && TrimSpace(m.pathPrefix[0]) != "" {
        matchType, matchValue := "path_prefix", TrimSpace(m.pathPrefix[0]);
      }
    }
    assert matches[..|matches|] == matches;
  }

  method ReadRuleHandlers(handle: seq<Handler>)
      returns (upstreams: seq<string>, stripPrefix: bool, rewritePrefix: string)
    ensures HandlerView(upstreams, stripPrefix, rewritePrefix) == ReadHandlers(handle)
  {
    upstreams, stripPrefix, rewritePrefix := [], false, "";
    for n := 0 to |handle|
      invariant HandlerView(upstreams, stripPrefix, rewritePrefix) == ReadHandlers(handle[..n])
    {
      assert handle[..n + 1][..n] == handle[..n];
      var h := handle[n];
      if h.handler == "reverse_proxy" {
        ghost var before := upstreams;
        for k := 0 to |h.upstreams|
          invariant upstreams == before + NonBlank(h.upstreams[..k])
        {
          assert h.upstreams[..k + 1][..k] == h.upstreams[..k];
          if TrimSpace(h.upstreams[k]) != "" {
            upstreams := upstreams + [h.upstreams[k]];
          }
        }
        assert h.upstreams[..|h.upstreams|] == h.upstreams;
      } else if h.handler == "rewrite" {
        if TrimSpace(h.stripPathPrefix) != "" {
          stripPrefix := true;
        }
        if |h.uriSubstring| > 0 && TrimSpace(h.uriSubstring[0].replace) != "" {
          rewritePrefix := TrimSpace(h.uriSubstring[0].replace);
        }
      }
    }
    assert handle[..|handle|] == handle;
  }

  lemma CollectedStep(rules: seq<RouteRule>, n: nat)
    requires n < |rules|
    ensures Collected(rules[..n + 1]) == Collected(rules[..n]) + RuleRoutes(rules[n])
  {
    hide RuleRoutes;
    assert rules[..n + 1][..n] == rules[..n];
  }

  lemma RuleRoutesAre(rule: RouteRule, m: MatcherView, h: HandlerView)
    requires ReadMatchers(rule.matches) == m && ReadHandlers(rule.handle) == h
    ensures RuleRoutes(rule) ==
            if m.hosts == [] || h.upstreams == [] then [] else RoutesOn(SortStrings(m.hosts), m, h, SortStrings(h.upstreams))
  {
    hide SortStrings;
  }

  method AppendHosts(before: seq<HTTPRoute>, hosts: seq<string>, m: MatcherView, h: HandlerView, upstreams: seq<string>)
      returns (routes: seq<HTTPRoute>)
    ensures routes == before + RoutesOn(hosts, m, h, upstreams)
  {
    routes := before;
    ghost var found := RoutesOn(hosts, m, h, upstreams);
    for n := 0 to |hosts|
      invariant routes == before + found[..n]
    {
      assert found[..n + 1] == found[..n] + [found[n]];
      routes := routes + [HTTPRoute(hosts[n], m.matchType, m.matchValue, h.stripPrefix, h.rewritePrefix, 0, upstreams)];
    }
    assert found[..|hosts|] == found;
  }

  method CollectRoutes(rules: seq<RouteRule>) returns (routes: seq<HTTPRoute>)
    ensures routes == Collected(rules)
  {
    routes := [];
    assert Collected(rules[..0]) == [];
    hide ReadMatchers, ReadHandlers, RuleRoutes, SortStrings, Collected, RoutesOn;
    for n := 0 to |rules|
      invariant routes == Collected(rules[..n])
    {
      CollectedStep(rules, n);
      var hosts, matchType, matchValue := ReadRuleMatchers(rules[n].matches);
      var upstreams, stripPrefix, rewritePrefix := ReadRuleHandlers(rules[n].handle);
      var m, h := MatcherView(hosts, matchType, matchValue), HandlerView(upstreams, stripPrefix, rewritePrefix);
      RuleRoutesAre(rules[n], m, h);
      if |hosts| == 0 || |upstreams| == 0 {
        continue;
      }
      routes := AppendHosts(routes, SortStrings(hosts), m, h, SortStrings(upstreams));
    }
    assert rules[..|rules|] == rules;
  }

  method ExtractHTTPRoutes(current: Option<Json>) returns (result: Result<seq<HTTPRoute>, ExtractError>)
    ensures result == Extracted(current)
  {
    if current.None? {
      return Ok([]);
    }
    var decoded := DecodeConfig(current.value);
    if decoded.None? {
      return Err(Undecodable);
    }
    if DEFAULT_SERVER !in decoded.value.servers {
      return Ok([]);
    }
    var routes := CollectRoutes(decoded.value.servers[DEFAULT_SERVER].routes);
    return Ok(SortRoutes(routes));
  }

  // ---- What is read of one rule ----

  /** The path of a matcher: its first exact path unless that is blank, or else its first prefix. */
  predicate HasPath(m: Match, matchType: string, matchValue: string) {
    if m.pathExact != [] && !Blank(m.pathExact[0]) then matchType == "path_exact" && matchValue == TrimSpace(m.pathExact[0])
    else m.pathPrefix != [] && !Blank(m.pathPrefix[0]) && matchType == "path_prefix" && matchValue == TrimSpace(m.pathPrefix[0])
  }

  predicate WithoutPath(m: Match) {
    (m.pathExact == [] || Blank(m.pathExact[0])) && (m.pathPrefix == [] || Blank(m.pathPrefix[0]))
  }

  /** The path of the last matcher that has one, or the whole host. */
  predicate LastPath(matches: seq<Match>, matchType: string, matchValue: string) {
    || (exists i :: 0 <= i < |matches| && HasPath(matches[i], matchType, matchValue) && forall j :: i < j < |matches| ==> WithoutPath(matches[j]))
    || ((forall j :: 0 <= j < |matches| ==> WithoutPath(matches[j])) && matchType == "host" && matchValue == "")
  }

  lemma {:induction false} MatchersMean(matches: seq<Match>)
    ensures var view := ReadMatchers(matches);
            && (forall host :: host in view.hosts <==> exists m :: m in matches && host in m.host)
            && LastPath(matches, view.matchType, view.matchValue)
  {
    hide TrimSpace;
    if matches != [] {
      var front, last := matches[..|matches| - 1], matches[|matches| - 1];
      MatchersMean(front);
      assert forall m :: m in matches <==> m in front || m == last by {
        assert matches == front + [last];
      }
      var view := ReadMatchers(matches);
      if WithoutPath(last) {
        PathStays(front, last, matches, view.matchType, view.matchValue);
      } else {
        assert HasPath(matches[|front|], view.matchType, view.matchValue);
      }
    }
  }

  lemma PathStays(front: seq<Match>, last: Match, matches: seq<Match>, matchType: string, matchValue: string)
    requires matches == front + [last] && WithoutPath(last) && LastPath(front, matchType, matchValue)
    ensures LastPath(matches, matchType, matchValue)
  {
    hide HasPath, WithoutPath;
    if i :| 0 <= i < |front| && HasPath(front[i], matchType, matchValue) && forall j :: i < j < |front| ==> WithoutPath(front[j]) {
      assert HasPath(matches[i], matchType, matchValue);
      forall j | i < j < |matches| ensures WithoutPath(matches[j]) {
        if j < |front| { assert matches[j] == front[j]; }
      }
    } else {
      forall j | 0 <= j < |matches| ensures WithoutPath(matches[j]) {
        if j < |front| { assert matches[j] == front[j]; }
      }
    }
  }

  /** The replacement of the last rewriting handler that has one, or nothing. */
  predicate LastRewrite(handle: seq<Handler>, rewritePrefix: string) {
    || (exists i :: 0 <= i < |handle| && ReplacesBy(handle[i], rewritePrefix) && forall j :: i < j < |handle| ==> !Replaces(handle[j]))
    || ((forall j :: 0 <= j < |handle| ==> !Replaces(handle[j])) && rewritePrefix == "")
  }

  predicate Replaces(h: Handler) {
    h.handler == "rewrite" && h.uriSubstring != [] && !Blank(h.uriSubstring[0].replace)
  }

  predicate ReplacesBy(h: Handler, rewritePrefix: string) {
    Replaces(h) && rewritePrefix == TrimSpace(h.uriSubstring[0].replace)
  }

  lemma {:induction false} NonBlankMembers(values: seq<string>)
    ensures forall v :: v in NonBlank(values) <==> v in values && !Blank(v)
  {
    if values != [] {
      NonBlankMembers(values[..|values| - 1]);
      assert values == values[..|values| - 1] + [values[|values| - 1]];
    }
  }

  lemma RewriteStays(front: seq<Handler>, last: Handler, handle: seq<Handler>, rewritePrefix: string)
    requires handle == front + [last] && !Replaces(last) && LastRewrite(front, rewritePrefix)
    ensures LastRewrite(handle, rewritePrefix)
  {
    hide Replaces, ReplacesBy;
    if i :| 0 <= i < |front| && ReplacesBy(front[i], rewritePrefix) && forall j :: i < j < |front| ==> !Replaces(front[j]) {
      assert handle[i] == front[i];
      forall j | i < j < |handle| ensures !Replaces(handle[j]) {
        if j < |front| { assert handle[j] == front[j]; }
      }
    } else {
      forall j | 0 <= j < |handle| ensures !Replaces(handle[j]) {
        if j < |front| { assert handle[j] == front[j]; }
      }
    }
  }

  lemma {:induction false} HandlersMean(handle: seq<Handler>)
    ensures var view := ReadHandlers(handle);
            && (forall u :: u in view.upstreams <==> exists h :: h in handle && h.handler == "reverse_proxy" && u in h.upstreams && !Blank(u))
            && (view.stripPrefix <==> exists h :: h in handle && h.handler == "rewrite" && !Blank(h.stripPathPrefix))
            && LastRewrite(handle, view.rewritePrefix)
  {
    hide TrimSpace, NonBlank;
    assert "reverse_proxy"[2] != "rewrite"[2];
    if handle != [] {
      var front, last := handle[..|handle| - 1], handle[|handle| - 1];
      HandlersMean(front);
      NonBlankMembers(last.upstreams);
      assert forall h :: h in handle <==> h in front || h == last by {
        assert handle == front + [last];
      }
      var view := ReadHandlers(handle);
      if Replaces(last) {
        assert ReplacesBy(handle[|front|], view.rewritePrefix);
      } else {
        RewriteStays(front, last, handle, view.rewritePrefix);
      }
    }
  }

  /** What the reader finds in any rule: one route for each host of any matcher, when some proxy has an
      upstream that is not blank; with the path of the last matcher that has one, all those upstreams, and
      what the rewriting handlers do. */
  lemma RuleReads(rule: RouteRule, r: HTTPRoute)
    requires r in RuleRoutes(rule)
    ensures exists m :: m in rule.matches && r.host in m.host
    ensures LastPath(rule.matches, r.matchType, r.matchValue)
    ensures r.upstreams != [] && SortedBy(r.upstreams, StrLess) && r.priority == 0
    ensures forall u :: u in r.upstreams <==> exists h :: h in rule.handle && h.handler == "reverse_proxy" && u in h.upstreams && !Blank(u)
    ensures r.stripPrefix <==> exists h :: h in rule.handle && h.handler == "rewrite" && !Blank(h.stripPathPrefix)
    ensures LastRewrite(rule.handle, r.rewritePrefix)
  {
    hide ReadMatchers, ReadHandlers, SortStrings, LastPath, LastRewrite, Blank;
    MatchersMean(rule.matches);
    HandlersMean(rule.handle);
    var m, h := ReadMatchers(rule.matches), ReadHandlers(rule.handle);
    SortStringsIsSortOf(m.hosts);
    SortStringsIsSortOf(h.upstreams);
    var i :| 0 <= i < |RuleRoutes(rule)| && RuleRoutes(rule)[i] == r;
    assert SortStrings(m.hosts)[i] in SortStrings(m.hosts);
  }

  /** And it finds one for each of them. */
  lemma RuleIsRead(rule: RouteRule, host: string, u: string)
    requires exists m :: m in rule.matches && host in m.host
    requires exists h :: h in rule.handle && h.handler == "reverse_proxy" && u in h.upstreams && !Blank(u)
    ensures exists r :: r in RuleRoutes(rule) && r.host == host
    ensures |RuleRoutes(rule)| == |ReadMatchers(rule.matches).hosts|
  {
    hide ReadMatchers, ReadHandlers, SortStrings, LastPath, LastRewrite, Blank;
    MatchersMean(rule.matches);
    HandlersMean(rule.handle);
    var m := ReadMatchers(rule.matches);
    assert host in m.hosts && u in ReadHandlers(rule.handle).upstreams;
    SortStringsIsSortOf(m.hosts);
    var i :| 0 <= i < |SortStrings(m.hosts)| && SortStrings(m.hosts)[i] == host;
    assert RuleRoutes(rule)[i] in RuleRoutes(rule);
  }

  // ---- Building, then extracting ----

  /** What reading can recover of a route: its priority is not written, its upstreams are sorted. */
  function Normal(route: HTTPRoute): HTTPRoute {
    route.(priority := 0, upstreams := SortStrings(route.upstreams))
  }

  function Normals(routes: seq<HTTPRoute>): seq<HTTPRoute> {
    Map(routes, Normal)
  }

  lemma {:induction false} NonBlankAll(values: seq<string>)
    requires forall v :: v in values ==> !Blank(v)
    ensures NonBlank(values) == values
  {
    if values != [] {
      NonBlankAll(values[..|values| - 1]);
    }
  }

  lemma ReadOwnMatcher(route: HTTPRoute)
    requires WellFormed(route)
    ensures ReadMatchers([MatchOf(route)]) == MatcherView([route.host], route.matchType, route.matchValue)
  {
    WellFormedIsNormal(route);
    var m := MatchOf(route);
    assert [m][..0] == [];
    assert [] + m.host == [route.host];
    assert ReadMatchers([m]) == ReadMatcher(MatcherView([], "host", ""), m);
  }

  lemma ReadLast(handle: seq<Handler>, last: Handler)
    ensures ReadHandlers(handle + [last]) == ReadHandler(ReadHandlers(handle), last)
  {
    assert (handle + [last])[..|handle|] == handle;
  }

  lemma ReadOwnRewrite(route: HTTPRoute)
    requires WellFormed(route)
    ensures ReadHandler(HandlerView([], false, ""), RewriteHandler(route)) == HandlerView([], route.stripPrefix, route.rewritePrefix)
  {
    WellFormedIsNormal(route);
  }

  lemma ReadOwnHandlers(route: HTTPRoute)
    requires WellFormed(route)
    ensures ReadHandlers(HandlersOf(route)) == HandlerView(SortStrings(route.upstreams), route.stripPrefix, route.rewritePrefix)
  {
    var encode, rewrite, proxy := EncodeHandler(), RewriteHandler(route), Handler("reverse_proxy", {}, SortStrings(route.upstreams), "", []);
    var none := HandlerView([], false, "");
    ReadLast([], encode);
    assert [] + [encode] == [encode];
    assert ReadHandler(none, encode) == none;
    ReadLast([encode], rewrite);
    ReadOwnRewrite(route);
    SortStringsIsSortOf(route.upstreams);
    NonBlankAll(proxy.upstreams);
    var changed := route.stripPrefix || !Blank(route.rewritePrefix);
    var handle := [encode] + if changed then [rewrite] else [];
    WellFormedIsNormal(route);
    assert changed || (!route.stripPrefix && route.rewritePrefix == "");
    assert ReadHandlers(handle) == HandlerView([], route.stripPrefix, route.rewritePrefix);
    ReadLast(handle, proxy);
    assert HandlersOf(route) == handle + [proxy];
  }

  lemma OneHostOneRoute(rule: RouteRule, host: string, matchType: string, matchValue: string, h: HandlerView)
    requires ReadMatchers(rule.matches) == MatcherView([host], matchType, matchValue)
    requires ReadHandlers(rule.handle) == h && h.upstreams != []
    ensures RuleRoutes(rule) ==
            [HTTPRoute(host, matchType, matchValue, h.stripPrefix, h.rewritePrefix, 0, SortStrings(h.upstreams))]
  {
    SortedIsFixed([host], StrLess);
  }

  /** Reading the rule of a well-formed route gives the route back. */
  lemma ReadOwnRule(route: HTTPRoute)
    requires WellFormed(route)
    ensures RuleRoutes(RuleOf(route)) == [Normal(route)]
  {
    ReadOwnMatcher(route);
    ReadOwnHandlers(route);
    SortStringsIsSortOf(route.upstreams);
    SortStringsIdempotent(route.upstreams);
    OneHostOneRoute(RuleOf(route), route.host, route.matchType, route.matchValue, ReadHandlers(HandlersOf(route)));
  }

  lemma {:induction false} CollectedOf(routes: seq<HTTPRoute>, build: HTTPRoute -> RouteRule, read: HTTPRoute -> HTTPRoute)
    requires forall r :: r in routes ==> RuleRoutes(build(r)) == [read(r)]
    ensures Collected(Map(routes, build)) == Map(routes, read)
  {
    hide RuleRoutes;
    if routes != [] {
      MapFront(routes, build);
      MapFront(routes, read);
      CollectedOf(routes[..|routes| - 1], build, read);
    }
  }

  lemma CollectedOfRules(routes: seq<HTTPRoute>)
    requires AllWellFormed(routes)
    ensures Collected(RulesOf(routes)) == Normals(routes)
  {
    forall r | r in routes ensures RuleRoutes(RuleOf(r)) == [Normal(r)] { ReadOwnRule(r); }
    CollectedOf(routes, RuleOf, Normal);
  }

  /** Extracting what was built gives back the same routes, as a multiset, in the order of a sort that
      no longer sees the priorities. */
  lemma ExtractOfBuild(routes: seq<HTTPRoute>)
    requires AllWellFormed(routes)
    ensures var extracted := Extracted(Some(EncodeConfig(ConfigOf(routes))));
            && extracted.Ok?
            && multiset(extracted.value) == multiset(Normals(routes))
            && SortedBy(extracted.value, RouteLess)
  {
    var config, sorted := ConfigOf(routes), SortRoutes(routes);
    DecodeEncodedConfig(config);
    SortRoutesIsSortOf(routes);
    CollectedOfRules(sorted);
    SortRoutesIsSortOf(Normals(sorted));
    MapPermutes(sorted, routes, Normal);
    assert Extracted(Some(EncodeConfig(config))) == Ok(SortRoutes(Normals(sorted)));
  }

  /** Of two equally specific routes of a host, the priorities put a first and the matchers put b first. */
  predicate Contradicts(a: HTTPRoute, b: HTTPRoute) {
    && RankOf(a).(priority := 0, summary := "") == RankOf(b).(priority := 0, summary := "")
    && a.priority < b.priority && StrLess(MatcherSummary(b), MatcherSummary(a))
  }

  predicate PriorityFollowsMatcher(routes: seq<HTTPRoute>) {
    forall a, b :: a in routes && b in routes ==> !Contradicts(a, b)
  }

  lemma OrderOfNormals(a: HTTPRoute, b: HTTPRoute)
    ensures RankOf(Normal(a)) == RankOf(a).(priority := 0)
    ensures !RouteLess(b, a) ==> (RouteLess(Normal(b), Normal(a)) <==> Contradicts(a, b))
  {
    hide NormalizedMatchType, MatcherSummary, RouteSpecificity, ValueLength, SortStrings;
    NormalKeepsMatcher(a);
    NormalKeepsMatcher(b);
    StrLessTotal(a.host, b.host);
    if StrLess(a.host, b.host) && StrLess(b.host, a.host) {
      StrLessTransitive(a.host, b.host, a.host);
      StrLessIrreflexive(a.host);
    }
  }

  lemma NormalKeepsMatcher(a: HTTPRoute)
    ensures MatcherSummary(Normal(a)) == MatcherSummary(a)
    ensures RouteSpecificity(Normal(a)) == RouteSpecificity(a) && ValueLength(Normal(a)) == ValueLength(a)
  {
  }

  lemma NormalsSorted(sorted: seq<HTTPRoute>)
    requires SortedBy(sorted, RouteLess)
    ensures SortedBy(Normals(sorted), RouteLess) <==> PriorityFollowsMatcher(sorted)
  {
    hide RouteLess, Contradicts, Normal;
    if PriorityFollowsMatcher(sorted) {
      forall i, j | 0 <= i < j < |sorted| ensures !RouteLess(Normals(sorted)[j], Normals(sorted)[i]) {
        OrderOfNormals(sorted[i], sorted[j]);
        assert sorted[i] in sorted && sorted[j] in sorted;
      }
    } else {
      var a, b :| a in sorted && b in sorted && Contradicts(a, b);
      var i, j :| 0 <= i < |sorted| && sorted[i] == a && 0 <= j < |sorted| && sorted[j] == b;
      LowerPriorityFirst(a, b);
      assert i < j by {
        RouteLessIsStrictWeakOrder();
      }
      OrderOfNormals(a, b);
      assert RouteLess(Normals(sorted)[j], Normals(sorted)[i]);
    }
  }

  lemma LowerPriorityFirst(a: HTTPRoute, b: HTTPRoute)
    requires Contradicts(a, b)
    ensures RouteLess(a, b) && !RouteLess(b, a)
  {
    hide RouteSpecificity, ValueLength, MatcherSummary;
    assert RankOf(a).host == RankOf(b).host;
    assert RankOf(a).specificity == RankOf(b).specificity && RankOf(a).length == RankOf(b).length;
  }

  /** Extracting keeps the order of the built routes exactly when priorities never contradict the order
      of the matchers. */
  lemma OrderSurvivesIff(routes: seq<HTTPRoute>)
    requires AllWellFormed(routes)
    ensures Extracted(Some(EncodeConfig(ConfigOf(routes)))) == Ok(Normals(SortRoutes(routes))) <==> PriorityFollowsMatcher(routes)
  {
    hide RouteLess, RankOf, MatcherSummary, Normal, DecodeConfig, EncodeConfig, WellFormed;
    var config, sorted := ConfigOf(routes), SortRoutes(routes);
    DecodeEncodedConfig(config);
    SortRoutesIsSortOf(routes);
    CollectedOfRules(sorted);
    SortRoutesIsSortOf(Normals(sorted));
    assert Extracted(Some(EncodeConfig(config))) == Ok(SortRoutes(Normals(sorted)));
    NormalsSorted(sorted);
    if PriorityFollowsMatcher(sorted) {
      SortedIsFixed(Normals(sorted), RouteLess);
    }
  }

  function PrefixRoute(prefix: string, priority: int): HTTPRoute {
    HTTPRoute("a.com", "path_prefix", prefix, false, "", priority, ["app:1"])
  }

  lemma PrefixContradicts()
    ensures var first, second := PrefixRoute("/b", 0), PrefixRoute("/a", 1);
            WellFormed(first) && WellFormed(second) && Contradicts(first, second)
  {
    var first, second := PrefixRoute("/b", 0), PrefixRoute("/a", 1);
    TrimCleanIsIdentity("app:1", IsSpace);
    assert WellFormed(first) && WellFormed(second);
    WellFormedIsNormal(first);
    WellFormedIsNormal(second);
    hide TrimSpace;
    assert StrLess("/a", "/b");
    SamePrefixLess("prefix ", "/a", "/b");
  }

  /** Two well-formed routes whose order does not survive. */
  lemma OrderIsLost()
    ensures var routes := [PrefixRoute("/b", 0), PrefixRoute("/a", 1)];
            && AllWellFormed(routes)
            && Extracted(Some(EncodeConfig(ConfigOf(routes)))) != Ok(Normals(SortRoutes(routes)))
  {
    hide Extracted, EncodeConfig, Normals, SortRoutes, WellFormed, Contradicts, PrefixRoute;
    var first, second := PrefixRoute("/b", 0), PrefixRoute("/a", 1);
    PrefixContradicts();
    OrderSurvivesIff([first, second]);
    assert first in [first, second] && second in [first, second];
  }
}
