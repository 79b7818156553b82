/** What is read out of a live config after a merge, and exactly when it can be read. */
module ReadMerged {
  import opened Text
  import opened Sequences
  import opened Sorting
  import opened CaddyRoutes
  import opened CaddyJson
  import opened CaddyMerge
  import opened CaddyRuns
  import opened CaddyExtract
  import opened ProjectRoutes

  /** The live config after merging some routes under their own keys. */
  function MergedWith(current: Option<Json>, wanted: seq<HTTPRoute>): Option<Json> {
    AfterCall(current, MergeCall(wanted, KeysOf(wanted)))
  }

  /** The live routes that such a merge keeps. */
  function Kept(current: Option<Json>, wanted: seq<HTTPRoute>): seq<Json> {
    Keep(LiveRoutes(current), KeysOf(wanted))
  }

  /** The elements that other spellings of "routes", say "Routes", leave for the items of "routes". */
  function LeftIn(server: JsonObject): seq<RuleState> {
    MembersInto(server, Spellings(server, "routes") - {"routes"}, Slots([], []), RulesInto).Cells()
  }

  function Left(current: Option<Json>): seq<RuleState> {
    var root := RootOf(current);
    if root.Merged? then LeftIn(ServerIn(root.root)) else []
  }

  /** What the reader finds in some live routes, decoded into elements that stand there. */
  function ReadOver(cells: seq<RuleState>, items: seq<Json>): seq<HTTPRoute> {
    Collected(Map(ItemsInto(cells, items, NO_RULE, RuleInto), SeenRule))
  }

  /** What the reader finds in the live routes that a merge does not manage. */
  function Foreign(current: Option<Json>, wanted: seq<HTTPRoute>): seq<HTTPRoute> {
    ReadOver(Left(current), Kept(current, wanted))
  }

  /** The elements left for the rules that a merge writes, after the kept routes have taken theirs. */
  function LeftForWanted(current: Option<Json>, wanted: seq<HTTPRoute>): seq<RuleState> {
    var cells, n := Left(current), |Kept(current, wanted)|;
    if n <= |cells| then cells[n..] else []
  }

  /** What the reader finds in the rules that the merge writes. */
  function Ours(current: Option<Json>, wanted: seq<HTTPRoute>): seq<HTTPRoute> {
    ReadOver(LeftForWanted(current, wanted), DesiredRules(wanted))
  }

  predicate StartsNonBlank(values: seq<string>) {
    values != [] && !Blank(values[0])
  }

  function FirstMatcher(cell: RuleState): MatchState {
    var cells := cell.matches.Cells();
    if cells == [] then NO_MATCH else cells[0]
  }

  /** A path that a matcher was left with overrides that of the route written over it. */
  predicate Overrides(left: MatchState, route: HTTPRoute) {
    && route.matchType != "path_exact"
    && (StartsNonBlank(left.pathExact.shown) || (route.matchType == "host" && StartsNonBlank(left.pathPrefix.shown)))
  }

  predicate Covers(cell: RuleState, route: HTTPRoute) {
    Overrides(FirstMatcher(cell), route)
  }

  /** The kind of matcher of a covered route changes like this. */
  predicate Stronger(read: string, written: string) {
    (read == "path_exact" && written != "path_exact") || (read == "path_prefix" && written == "host")
  }

  /** No wanted route is written over such a path. */
  predicate Spared(current: Option<Json>, wanted: seq<HTTPRoute>) {
    var cells, sorted := LeftForWanted(current, wanted), SortRoutes(wanted);
    forall i | 0 <= i < |sorted| && i < |cells| :: !Covers(cells[i], sorted[i])
  }

  // ---- The server that is read ----

  lemma ListenIsNotRoutes()
    ensures !EqualFold("routes", "listen") && !EqualFold("listen", "routes")
  {
    assert ToLower("routes")[0] == 'r' && ToLower("listen")[0] == 'l';
  }

  lemma SpellingsBeside(m: JsonObject, key: string, other: string, value: Json)
    requires !EqualFold(other, key)
    ensures Spellings(m[other := value], key) == Spellings(m, key)
  {
  }

  lemma SpellingsWith(m: JsonObject, key: string, value: Json)
    ensures Spellings(m[key := value], key) == Spellings(m, key) + {key}
  {
  }

  /** A server reads its list of routes into what the other spellings have left. */
  lemma RoutesRead(server: JsonObject, items: seq<Json>)
    ensures ReadServer(Object(server["routes" := Array(items)])).routes == Map(ItemsInto(LeftIn(server), items, NO_RULE, RuleInto), SeenRule)
  {
    ServerNamesAreLower();
    hide RuleInto, IsLower, Spellings, MembersInto, FieldInto;
    var server' := server["routes" := Array(items)];
    SpellingsWith(server, "routes", Array(items));
    var others := Spellings(server, "routes") - {"routes"};
    assert Spellings(server', "routes") - {"routes"} == others;
    LowerComesLast(server', "routes", Slots([], []), RulesInto);
    MembersAlike(server, server', others, Slots([], []), RulesInto);
  }

  lemma ListenLeavesRoutes(server: JsonObject, value: Json)
    ensures LeftIn(server["listen" := value]) == LeftIn(server)
  {
    hide Spellings, MembersInto, EqualFold;
    ListenIsNotRoutes();
    SpellingsBeside(server, "routes", "listen", value);
    assert "listen" !in Spellings(server, "routes") by { SpellingsFold(server, "routes"); }
    MembersAlike(server, server["listen" := value], Spellings(server, "routes") - {"routes"}, Slots([], []), RulesInto);
  }

  lemma SpellingsFold(m: JsonObject, key: string)
    ensures forall name :: name in Spellings(m, key) ==> EqualFold(name, key) && name in m
  {
  }

  lemma MergedServerReads(server: JsonObject, desired: seq<Json>, keys: set<string>)
    ensures ReadServer(Object(MergedServer(server, desired, keys))).routes ==
            Map(ItemsInto(LeftIn(server), Keep(RoutesOfServer(server), keys) + desired, NO_RULE, RuleInto), SeenRule)
  {
    hide ReadServer, RuleInto, Keep, LeftIn;
    ListenLeavesRoutes(server, EncodeStrings(DEFAULT_LISTEN));
    RoutesRead(if "listen" in server then server else server["listen" := EncodeStrings(DEFAULT_LISTEN)],
               Keep(RoutesOfServer(server), keys) + desired);
  }

  /** Whatever else is spelled on the way to srv0, the server written there is the one that is read. */
  lemma ServerIsRead(root: JsonObject, server: JsonObject)
    ensures var servers := ConfigInto(map[], Object(WithServer(root, server)));
            DEFAULT_SERVER in servers && servers[DEFAULT_SERVER] == ReadServer(Object(server))
  {
    ServerNamesAreLower();
    hide ReadServer, IsLower, Spellings, MembersInto, FieldInto;
    var http := EnsureMap(EnsureMap(root, "apps"), "http");
    var servers' := Object(EnsureMap(http, "servers")[DEFAULT_SERVER := Object(server)]);
    var http' := http["servers" := servers'];
    var apps' := EnsureMap(root, "apps")["http" := Object(http')];
    assert WithServer(root, server) == root["apps" := Object(apps')];
    LowerComesLast(WithServer(root, server), "apps", map[], AppsInto);
    var fromApps := MembersInto(WithServer(root, server), Spellings(WithServer(root, server), "apps") - {"apps"}, map[], AppsInto);
    LowerComesLast(apps', "http", fromApps, HttpInto);
    var fromHttp := MembersInto(apps', Spellings(apps', "http") - {"http"}, fromApps, HttpInto);
    LowerComesLast(http', "servers", fromHttp, ServersInto);
  }

  lemma DesiredRead(wanted: seq<HTTPRoute>)
    ensures Map(ItemsInto([], DesiredRules(wanted), NO_RULE, RuleInto), SeenRule) == RulesOf(SortRoutes(wanted))
  {
    hide RuleInto, EncodeRule, RuleOf, SeenRule;
    var rules := RulesOf(SortRoutes(wanted));
    forall i | 0 <= i < |rules| ensures SeenRule(RuleInto(NO_RULE, EncodeRule(rules[i]))) == rules[i] {
      OwnRuleReads(rules[i]);
    }
  }

  lemma OwnRuleReads(rule: RouteRule)
    ensures RuleFits(EncodeRule(rule)) && SeenRule(RuleInto(NO_RULE, EncodeRule(rule))) == rule
  {
    hide RuleInto, EncodeRule, RuleFits;
    DecodeEncodedRule(rule);
  }

  lemma {:induction false} CollectedAppend(a: seq<RouteRule>, b: seq<RouteRule>)
    ensures Collected(a + b) == Collected(a) + Collected(b)
  {
    hide RuleRoutes;
    if b == [] {
      assert a + b == a;
    } else {
      assert (a + b)[..|a + b| - 1] == a + b[..|b| - 1];
      CollectedAppend(a, b[..|b| - 1]);
    }
  }

  lemma ItemsAppend<T>(cells: seq<T>, a: seq<Json>, b: seq<Json>, zero: T, into: (T, Json) -> T)
    ensures ItemsInto(cells, a + b, zero, into) ==
            ItemsInto(cells, a, zero, into) + ItemsInto(if |a| <= |cells| then cells[|a|..] else [], b, zero, into)
  {
  }

  /** After a merge, when the config can be read, the reader finds the foreign routes and what it makes of
      the rules written, sorted. Those are the wanted routes where nothing is left for them. */
  lemma ReadAfterMerge(current: Option<Json>, wanted: seq<HTTPRoute>)
    requires RootOf(current).Merged? && AllWellFormed(wanted)
    ensures var extracted := Extracted(MergedWith(current, wanted));
            extracted.Ok? ==> extracted.value == SortRoutes(Foreign(current, wanted) + Ours(current, wanted))
    ensures LeftForWanted(current, wanted) == [] ==> Ours(current, wanted) == Normals(SortRoutes(wanted))
  {
    hide ConfigFits, ReadServer, ConfigInto, Collected, WellFormed, RuleInto, Normals;
    hide Keep, LeftIn, ItemsInto, SeenRule, WithServer, ServerIn, MergedServer, DesiredRules;
    var root, keys := RootOf(current).root, KeysOf(wanted);
    var merged := MergedServer(ServerIn(root), DesiredRules(wanted), keys);
    ServerIsRead(root, merged);
    MergedServerReads(ServerIn(root), DesiredRules(wanted), keys);
    ReadParts(Left(current), Kept(current, wanted), DesiredRules(wanted));
    DesiredRead(wanted);
    SortRoutesIsSortOf(wanted);
    CollectedOfRules(SortRoutes(wanted));
  }

  lemma ReadParts(cells: seq<RuleState>, a: seq<Json>, b: seq<Json>)
    ensures ReadOver(cells, a + b) == ReadOver(cells, a) + ReadOver(if |a| <= |cells| then cells[|a|..] else [], b)
  {
    hide Collected, RuleInto, ItemsInto, SeenRule;
    var rest := if |a| <= |cells| then cells[|a|..] else [];
    ItemsAppend(cells, a, b, NO_RULE, RuleInto);
    MapAppend(ItemsInto(cells, a, NO_RULE, RuleInto), ItemsInto(rest, b, NO_RULE, RuleInto), SeenRule);
    CollectedAppend(Map(ItemsInto(cells, a, NO_RULE, RuleInto), SeenRule), Map(ItemsInto(rest, b, NO_RULE, RuleInto), SeenRule));
  }

  // ---- A rule written over what is left ----

  lemma StringsOver(prev: Slots<string>, value: string)
    ensures StringsInto(prev, EncodeStrings([value])).shown == [value]
  {
    var items := EncodeStrings([value]).items;
    assert items == [String(value)];
    assert ItemsInto(prev.Cells(), items, "", StringInto)[0] == value;
  }

  /** A written matcher keeps the paths that it does not name itself. */
  lemma MatchOver(prev: MatchState, route: HTTPRoute)
    ensures SeenMatch(MatchInto(prev, EncodeMatch(MatchOf(route)))) ==
            Match([route.host],
                  if route.matchType == "path_prefix" then [route.matchValue] else prev.pathPrefix.shown,
                  if route.matchType == "path_exact" then [route.matchValue] else prev.pathExact.shown)
  {
    RuleNamesAreLower();
    hide Spellings, IsLower, EncodeStrings, FieldInto, StringsInto;
    OneSpelling(EncodeMatch(MatchOf(route)).members);
    StringsOver(prev.host, route.host);
    StringsOver(prev.pathPrefix, route.matchValue);
    StringsOver(prev.pathExact, route.matchValue);
  }

  lemma UpstreamsOver(prev: Slots<string>, dials: seq<string>)
    ensures UpstreamsInto(prev, EncodeList(dials, EncodeUpstream)).shown == dials
  {
    PartNamesAreLower();
    hide Spellings, IsLower, FieldInto;
    forall dial, old_ ensures UpstreamInto(old_, EncodeUpstream(dial)) == dial {
      OneSpelling(EncodeUpstream(dial).members);
    }
    assert dials != [] ==> ItemsInto(prev.Cells(), EncodeList(dials, EncodeUpstream).items, "", UpstreamInto) == dials;
  }

  /** The same handlers, as far as the reader looks for upstreams. */
  predicate SameProxies(a: seq<Handler>, b: seq<Handler>) {
    && |a| == |b|
    && forall i | 0 <= i < |a| :: a[i].handler == b[i].handler && (b[i].handler == "reverse_proxy" ==> a[i].upstreams == b[i].upstreams)
  }

  lemma HandlerOver(prev: HandlerState, h: Handler)
    ensures var read := SeenHandler(HandlerInto(prev, EncodeHandlerJson(h)));
            read.handler == h.handler && (h.upstreams != [] ==> read.upstreams == h.upstreams)
  {
    assert EncodeHandlerJson(h).Object?;
    hide Spellings, FieldInto, EncodeHandlerJson, EncodeList, EncodeEncodings, UpstreamsInto, SubstringsInto, EncodingsInto;
    HandlerMembers(h);
    UpstreamsOver(prev.upstreams, h.upstreams);
  }

  lemma HandlersOver(prev: Slots<HandlerState>, handle: seq<Handler>)
    requires forall h :: h in handle && h.handler == "reverse_proxy" ==> h.upstreams != []
    ensures SameProxies(Map(HandlersInto(prev, EncodeList(handle, EncodeHandlerJson)).shown, SeenHandler), handle)
  {
    hide EncodeHandlerJson, HandlerInto, SeenHandler;
    forall i, old_ | 0 <= i < |handle|
      ensures var read := SeenHandler(HandlerInto(old_, EncodeHandlerJson(handle[i])));
              read.handler == handle[i].handler && (handle[i].upstreams != [] ==> read.upstreams == handle[i].upstreams)
    {
      HandlerOver(old_, handle[i]);
    }
  }

  lemma {:induction false} SameUpstreams(a: seq<Handler>, b: seq<Handler>)
    requires SameProxies(a, b)
    ensures ReadHandlers(a).upstreams == ReadHandlers(b).upstreams
  {
    if a != [] {
      SameUpstreams(a[..|a| - 1], b[..|b| - 1]);
    }
  }

  /** The members that a rule is written with, and under no other spelling. */
  lemma RuleMembers(rule: RouteRule)
    requires rule.matches != [] && rule.handle != []
    ensures EncodeRule(rule).Object?
    ensures var m := EncodeRule(rule).members;
            && Spellings(m, "match") == {"match"} && m["match"] == EncodeList(rule.matches, EncodeMatch)
            && Spellings(m, "handle") == {"handle"} && m["handle"] == EncodeList(rule.handle, EncodeHandlerJson)
  {
    RuleNamesAreLower();
    hide Spellings, IsLower, EncodeMatch, EncodeHandlerJson, EncodeList;
    OneSpelling(EncodeRule(rule).members);
  }

  /** What a written rule is read as, over any element. */
  lemma RuleOver(cell: RuleState, route: HTTPRoute)
    requires WellFormed(route)
    ensures var rule := SeenRule(RuleInto(cell, EncodeRule(RuleOf(route))));
            && rule.matches == [SeenMatch(MatchInto(FirstMatcher(cell), EncodeMatch(MatchOf(route))))]
            && SameProxies(rule.handle, HandlersOf(route))
  {
    HandlersNotEmpty(route);
    ProxiesHaveUpstreams(route);
    hide Spellings, FieldInto, EncodeRule, EncodeMatch, MatchInto, EncodeHandlerJson, HandlersInto;
    hide MatchesInto, HandlersOf, MatchOf, WellFormed, EncodeList, SeenMatch, SameProxies;
    RuleMembers(RuleOf(route));
    HandlersOver(cell.handle, HandlersOf(route));
    MatchesOver(cell.matches, MatchOf(route));
  }

  lemma HandlersNotEmpty(route: HTTPRoute)
    ensures HandlersOf(route) != []
  {
  }

  lemma ProxiesHaveUpstreams(route: HTTPRoute)
    requires WellFormed(route)
    ensures forall h :: h in HandlersOf(route) && h.handler == "reverse_proxy" ==> h.upstreams != []
  {
    SortStringsIsSortOf(route.upstreams);
    assert "reverse_proxy"[2] == 'v' && "rewrite"[2] == 'w' && "encode"[0] == 'e' && "reverse_proxy"[0] == 'r';
  }

  lemma MatchesOver(prev: Slots<MatchState>, m: Match)
    ensures Map(MatchesInto(prev, EncodeList([m], EncodeMatch)).shown, SeenMatch) ==
            [SeenMatch(MatchInto(if prev.Cells() == [] then NO_MATCH else prev.Cells()[0], EncodeMatch(m)))]
  {
    hide EncodeMatch, MatchInto, SeenMatch;
  }

  /** A route as read goes where the written one does, for the same host. */
  predicate SameTarget(read: HTTPRoute, route: HTTPRoute) {
    read.host == route.host && read.priority == 0 && read.upstreams == SortStrings(route.upstreams)
  }

  lemma MatcherOver(left: MatchState, route: HTTPRoute)
    requires WellFormed(route)
    ensures var view := ReadMatchers([SeenMatch(MatchInto(left, EncodeMatch(MatchOf(route))))]);
            && view.hosts == [route.host]
            && (Overrides(left, route) <==> view.matchType != route.matchType)
            && (Overrides(left, route) ==> Stronger(view.matchType, route.matchType))
            && (view.matchType == route.matchType ==> view.matchValue == route.matchValue)
  {
    MatchOver(left, route);
    hide MatchInto, EncodeMatch, WellFormed, SeenMatch, Overrides, ReadMatcher;
    var m := SeenMatch(MatchInto(left, EncodeMatch(MatchOf(route))));
    OverriddenPath(left, route, m);
    assert [m][..0] == [];
    assert ReadMatchers([m]) == ReadMatcher(MatcherView([], "host", ""), m);
  }

  lemma OverriddenPath(left: MatchState, route: HTTPRoute, m: Match)
    requires WellFormed(route)
    requires m == Match([route.host],
                        if route.matchType == "path_prefix" then [route.matchValue] else left.pathPrefix.shown,
                        if route.matchType == "path_exact" then [route.matchValue] else left.pathExact.shown)
    ensures var view := ReadMatcher(MatcherView([], "host", ""), m);
            && view.hosts == [route.host]
            && (Overrides(left, route) <==> view.matchType != route.matchType)
            && (Overrides(left, route) ==> Stronger(view.matchType, route.matchType))
            && (view.matchType == route.matchType ==> view.matchValue == route.matchValue)
  {
    WellFormedIsNormal(route);
    hide TrimSpace;
    assert [] + m.host == m.host;
    assert "host"[0] != "path_prefix"[0] && "host"[0] != "path_exact"[0] && "path_prefix"[5] != "path_exact"[5];
  }

  /** A wanted route that is written is read back as one route, to the same upstreams; and with its own
      matcher exactly when the element that it was written over does not cover it. */
  lemma ReadsBack(cell: RuleState, route: HTTPRoute)
    requires WellFormed(route)
    ensures var found := RuleRoutes(SeenRule(RuleInto(cell, EncodeRule(RuleOf(route)))));
            && |found| == 1 && SameTarget(found[0], route)
            && (Covers(cell, route) <==> found[0].matchType != route.matchType)
            && (Covers(cell, route) ==> Stronger(found[0].matchType, route.matchType))
            && (!Covers(cell, route) ==> found[0].matchValue == route.matchValue)
  {
    var rule := SeenRule(RuleInto(cell, EncodeRule(RuleOf(route))));
    RuleOver(cell, route);
    MatcherOver(FirstMatcher(cell), route);
    SameUpstreams(rule.handle, HandlersOf(route));
    ReadOwnHandlers(route);
    SortStringsIsSortOf(route.upstreams);
    SortStringsIdempotent(route.upstreams);
    hide ReadMatchers, ReadHandlers, SortStrings, RuleInto, EncodeRule, RuleOf;
    hide HandlersOf, SameProxies, FirstMatcher, MatchInto, WellFormed, Overrides;
    var view := ReadMatchers(rule.matches);
    OneHostOneRoute(rule, route.host, view.matchType, view.matchValue, ReadHandlers(rule.handle));
  }

  lemma {:induction false} CollectedSingles(rules: seq<RouteRule>)
    requires forall i :: 0 <= i < |rules| ==> |RuleRoutes(rules[i])| == 1
    ensures |Collected(rules)| == |rules|
    ensures forall i :: 0 <= i < |rules| ==> Collected(rules)[i] == RuleRoutes(rules[i])[0]
  {
    hide RuleRoutes;
    if rules != [] {
      CollectedSingles(rules[..|rules| - 1]);
    }
  }

  /** The i-th wanted route, as sorted, is read back as the i-th of ours. */
  lemma OursReadBack(current: Option<Json>, wanted: seq<HTTPRoute>)
    requires AllWellFormed(wanted)
    ensures var ours, sorted, cells := Ours(current, wanted), SortRoutes(wanted), LeftForWanted(current, wanted);
            && |ours| == |sorted| == |wanted|
            && forall i :: 0 <= i < |ours| ==>
                 var covered := i < |cells| && Covers(cells[i], sorted[i]);
                 && SameTarget(ours[i], sorted[i])
                 && (covered <==> ours[i].matchType != sorted[i].matchType)
                 && (covered ==> Stronger(ours[i].matchType, sorted[i].matchType))
                 && (!covered ==> ours[i].matchValue == sorted[i].matchValue)
  {
    hide WellFormed, RuleRoutes, RuleInto, SeenRule, EncodeRule, RuleOf, Covers, SameTarget, LeftForWanted;
    SortRoutesIsSortOf(wanted);
    MultisetMembers(SortRoutes(wanted), wanted);
    var sorted, cells := SortRoutes(wanted), LeftForWanted(current, wanted);
    var rules := Map(ItemsInto(cells, DesiredRules(wanted), NO_RULE, RuleInto), SeenRule);
    NothingCovers();
    forall i | 0 <= i < |rules|
      ensures rules[i] == SeenRule(RuleInto(if i < |cells| then cells[i] else NO_RULE, EncodeRule(RuleOf(sorted[i]))))
    {
    }
    forall i | 0 <= i < |rules| ensures |RuleRoutes(rules[i])| == 1 {
      assert sorted[i] in sorted;
      ReadsBack(if i < |cells| then cells[i] else NO_RULE, sorted[i]);
    }
    CollectedSingles(rules);
    forall i | 0 <= i < |rules|
      ensures var covered := i < |cells| && Covers(cells[i], sorted[i]);
              && SameTarget(Collected(rules)[i], sorted[i])
              && (covered <==> Collected(rules)[i].matchType != sorted[i].matchType)
              && (covered ==> Stronger(Collected(rules)[i].matchType, sorted[i].matchType))
              && (!covered ==> Collected(rules)[i].matchValue == sorted[i].matchValue)
    {
      assert sorted[i] in sorted;
      ReadsBack(if i < |cells| then cells[i] else NO_RULE, sorted[i]);
    }
  }

  lemma NothingCovers()
    ensures forall route :: !Covers(NO_RULE, route)
  {
  }

  // ---- Exactly when it can be read ----

  /** The members of a name's other spellings can be decoded. */
  predicate OthersFit(m: JsonObject, key: string, fits: Json -> bool) {
    forall name | name in Spellings(m, key) - {key} :: fits(m[name])
  }

  lemma FitsWith(m: JsonObject, key: string, value: Json, fits: Json -> bool)
    ensures FieldFits(m[key := value], key, fits) <==> fits(value) && OthersFit(m, key, fits)
  {
    hide Spellings;
    SpellingsWith(m, key, value);
    if FieldFits(m[key := value], key, fits) {
      assert key in Spellings(m[key := value], key);
      forall name | name in Spellings(m, key) - {key} ensures fits(m[name]) {
        assert name in Spellings(m[key := value], key);
      }
    }
  }

  lemma FitsWithout(m: JsonObject, key: string, fits: Json -> bool)
    ensures FieldFits(m - {key}, key, fits) <==> OthersFit(m, key, fits)
    ensures FieldFits(m, key, fits) ==> OthersFit(m, key, fits)
  {
    assert Spellings(m - {key}, key) == Spellings(m, key) - {key};
  }

  lemma FitsBeside(m: JsonObject, key: string, other: string, value: Json, fits: Json -> bool)
    requires !EqualFold(other, key)
    ensures FieldFits(m[other := value], key, fits) <==> FieldFits(m, key, fits)
    ensures FieldFits(m - {other}, key, fits) <==> FieldFits(m, key, fits)
  {
    assert Spellings(m[other := value], key) == Spellings(m, key) == Spellings(m - {other}, key);
  }

  /** A config can be read exactly when srv0 can, and the config around it. */
  lemma ConfigFitsIff(root: JsonObject, server: JsonObject)
    ensures ConfigFits(Object(WithServer(root, server))) <==> ConfigFits(Object(WithServer(root, map[]))) && ServerFits(Object(server))
  {
    hide ServerFits;
    AroundServer(root, server);
    AroundServer(root, map[]);
    EmptyServerFits();
  }

  lemma EmptyServerFits()
    ensures ServerFits(Object(map[]))
  {
  }

  predicate AroundFits(root: JsonObject) {
    var apps := EnsureMap(root, "apps");
    var http := EnsureMap(apps, "http");
    var servers := EnsureMap(http, "servers");
    && OthersFit(root, "apps", AppsFit) && OthersFit(apps, "http", HttpFits) && OthersFit(http, "servers", ServersFit)
    && forall k | k in servers && k != DEFAULT_SERVER :: ServerFits(servers[k])
  }

  lemma AroundServer(root: JsonObject, server: JsonObject)
    ensures ConfigFits(Object(WithServer(root, server))) <==> AroundFits(root) && ServerFits(Object(server))
  {
    hide ServerFits, FieldFits, OthersFit;
    var apps := EnsureMap(root, "apps");
    var http := EnsureMap(apps, "http");
    var servers := EnsureMap(http, "servers");
    var servers' := servers[DEFAULT_SERVER := Object(server)];
    var http' := http["servers" := Object(servers')];
    var apps' := apps["http" := Object(http')];
    FitsWith(root, "apps", Object(apps'), AppsFit);
    FitsWith(apps, "http", Object(http'), HttpFits);
    FitsWith(http, "servers", Object(servers'), ServersFit);
    assert ServersFit(Object(servers')) <==>
           ServerFits(Object(server)) && forall k | k in servers && k != DEFAULT_SERVER :: ServerFits(servers[k]) by {
      assert servers'[DEFAULT_SERVER] == Object(server);
      forall k | k in servers && k != DEFAULT_SERVER ensures k in servers' && servers'[k] == servers[k] {
      }
    }
  }

  /** The server that a merge writes can be read exactly when the kept and the written routes can, and
      whatever else the server holds. */
  lemma MergedServerFitsIff(server: JsonObject, desired: seq<Json>, keys: set<string>)
    requires RulesFit(Array(desired))
    ensures ServerFits(Object(MergedServer(server, desired, keys)))
            <==> RulesFit(Array(Keep(RoutesOfServer(server), keys))) && ServerFits(Object(server - {"routes"}))
  {
    hide FieldFits, OthersFit, RuleFits, StringsFit, EqualFold, Keep;
    ListenIsNotRoutes();
    ReadEncodedStrings(DEFAULT_LISTEN);
    var listen, kept := EncodeStrings(DEFAULT_LISTEN), Keep(RoutesOfServer(server), keys);
    var listening := if "listen" in server then server else server["listen" := listen];
    ListenFits(server);
    FitsBeside(listening, "listen", "routes", Array(kept + desired), StringsFit);
    FitsBeside(server, "listen", "routes", Array([]), StringsFit);
    FitsWith(listening, "routes", Array(kept + desired), RulesFit);
    OthersBeside(server, listen);
    FitsWithout(server, "routes", RulesFit);
    ItemsFit(kept, desired);
  }

  lemma ItemsFit(a: seq<Json>, b: seq<Json>)
    requires RulesFit(Array(b))
    ensures RulesFit(Array(a + b)) <==> RulesFit(Array(a))
  {
    hide RuleFits;
    if RulesFit(Array(a + b)) {
      forall i | 0 <= i < |a| ensures RuleFits(a[i]) {
        assert (a + b)[i] == a[i];
      }
    }
  }

  lemma ListenFits(server: JsonObject)
    ensures "listen" !in server ==>
              (FieldFits(server["listen" := EncodeStrings(DEFAULT_LISTEN)], "listen", StringsFit) <==> FieldFits(server, "listen", StringsFit))
  {
    hide StringsFit, EncodeStrings;
    ReadEncodedStrings(DEFAULT_LISTEN);
    FitsWith(server, "listen", EncodeStrings(DEFAULT_LISTEN), StringsFit);
  }

  lemma OthersBeside(server: JsonObject, value: Json)
    ensures OthersFit(server["listen" := value], "routes", RulesFit) <==> OthersFit(server, "routes", RulesFit)
  {
    hide EqualFold, RulesFit;
    ListenIsNotRoutes();
    SpellingsBeside(server, "routes", "listen", value);
  }

  lemma DesiredFit(wanted: seq<HTTPRoute>)
    ensures RulesFit(Array(DesiredRules(wanted)))
  {
    hide RuleFits, EncodeRule, RuleOf;
    var rules := RulesOf(SortRoutes(wanted));
    forall i | 0 <= i < |rules| ensures RuleFits(EncodeRule(rules[i])) {
      OwnRuleReads(rules[i]);
    }
  }

  /** The kept routes can be read, and so can srv0 without its routes, and the config around srv0. */
  predicate Readable(current: Option<Json>, wanted: seq<HTTPRoute>)
    requires RootOf(current).Merged?
  {
    var root := RootOf(current).root;
    && RulesFit(Array(Kept(current, wanted)))
    && ServerFits(Object(ServerIn(root) - {"routes"}))
    && ConfigFits(Object(WithServer(root, map[])))
  }

  /** The config can be read after a merge exactly when what the merge keeps of it can be read. */
  lemma ReadableIff(current: Option<Json>, wanted: seq<HTTPRoute>)
    requires RootOf(current).Merged?
    ensures Extracted(MergedWith(current, wanted)).Ok? <==> Readable(current, wanted)
  {
    hide ConfigFits, ServerFits, RulesFit, MergedServer, ServerIn, WithServer, DesiredRules;
    var root := RootOf(current).root;
    DesiredFit(wanted);
    MergedServerFitsIff(ServerIn(root), DesiredRules(wanted), KeysOf(wanted));
    ConfigFitsIff(root, MergedServer(ServerIn(root), DesiredRules(wanted), KeysOf(wanted)));
  }

  /** Where a member can be decoded, so can the object that a merge finds under its name. */
  lemma EnsuredFits(m: JsonObject, key: string, fits: Json -> bool)
    requires FieldFits(m, key, fits) && fits(Object(map[]))
    ensures fits(Object(EnsureMap(m, key))) && OthersFit(m, key, fits)
  {
    if key in m {
      assert key in Spellings(m, key);
    }
  }

  lemma EmptyFits()
    ensures ServersFit(Object(map[])) && HttpFits(Object(map[])) && AppsFit(Object(map[])) && ServerFits(Object(map[]))
  {
  }

  lemma AroundOfReadable(root: JsonObject)
    requires ConfigFits(Object(root))
    ensures AroundFits(root) && ServerFits(Object(ServerIn(root)))
  {
    EmptyFits();
    hide ServerFits, FieldFits, OthersFit;
    var apps := EnsureMap(root, "apps");
    EnsuredFits(root, "apps", AppsFit);
    var http := EnsureMap(apps, "http");
    EnsuredFits(apps, "http", HttpFits);
    EnsuredFits(http, "servers", ServersFit);
  }

  lemma ServerFitsParts(server: JsonObject, keys: set<string>)
    requires ServerFits(Object(server))
    ensures RulesFit(Array(Keep(RoutesOfServer(server), keys))) && ServerFits(Object(server - {"routes"}))
    ensures RulesFit(Array(RoutesOfServer(server)))
  {
    hide RuleFits, StringsFit, EqualFold, Keep;
    ListenIsNotRoutes();
    FitsBeside(server, "listen", "routes", Array([]), StringsFit);
    FitsWithout(server, "routes", RulesFit);
    RoutesFit(server);
    var routes := RoutesOfServer(server);
    var kept := Keep(routes, keys);
    KeepMembers(routes, keys);
    forall i | 0 <= i < |kept| ensures RuleFits(kept[i]) {
      assert kept[i] in routes;
    }
  }

  lemma RoutesFit(server: JsonObject)
    requires FieldFits(server, "routes", RulesFit)
    ensures RulesFit(Array(RoutesOfServer(server)))
  {
    hide RuleFits;
    if "routes" in server {
      assert "routes" in Spellings(server, "routes");
    }
  }

  lemma CurrentFits(current: Option<Json>)
    requires RootOf(current).Merged? && Extracted(current).Ok?
    ensures ConfigFits(Object(RootOf(current).root))
  {
    if current.None? {
      assert Spellings(map[], "apps") == {};
    }
  }

  /** Merging does not make a readable config unreadable. */
  lemma StaysReadable(current: Option<Json>, wanted: seq<HTTPRoute>)
    requires RootOf(current).Merged? && Extracted(current).Ok?
    ensures Extracted(MergedWith(current, wanted)).Ok? && RulesFit(Array(LiveRoutes(current)))
  {
    hide ConfigFits, ServerFits, RulesFit, ServerIn, WithServer, AroundFits, Extracted, RoutesOfServer;
    var root := RootOf(current).root;
    CurrentFits(current);
    AroundOfReadable(root);
    ServerFitsParts(ServerIn(root), KeysOf(wanted));
    EmptyFits();
    AroundServer(root, map[]);
    ReadableIff(current, wanted);
  }
}
