/** Live configs that a reconcile leaves with drift, whatever host it wants to serve, though the wanted
    route is well-formed and alone under its key. */
module DriftWitnesses {
  import opened Text
  import opened Sequences
  import opened Sorting
  import opened CaddyRoutes
  import opened CaddyJson
  import opened CaddyMerge
  import opened CaddyRuns
  import opened CaddyExtract
  import opened ProjectRoutes
  import opened RouteDrift
  import opened ReadMerged
  import opened DriftAfterMerge

  function LiveConfig(server: JsonObject): Json {
    Object(map["apps" := Object(map["http" := Object(map["servers" := Object(map[DEFAULT_SERVER := Object(server)])])])])
  }

  /** A server that lists one route. */
  function Serving(rule: Json): JsonObject {
    map["routes" := Array([rule])]
  }

  lemma LiveConfigFits(server: JsonObject)
    requires ServerFits(Object(server))
    ensures Extracted(Some(LiveConfig(server))).Ok?
  {
    ServerNamesAreLower();
    hide Spellings, IsLower, ServerFits, FieldInto;
    var servers := Object(map[DEFAULT_SERVER := Object(server)]);
    OnlyField("servers", servers);
    OnlyField("http", Object(map["servers" := servers]));
    OnlyField("apps", Object(map["http" := Object(map["servers" := servers])]));
  }

  lemma LiveConfigHolds(server: JsonObject)
    ensures RootOf(Some(LiveConfig(server))).Merged? && ServerIn(RootOf(Some(LiveConfig(server))).root) == server
  {
  }

  lemma ServingFits(rule: Json)
    requires RuleFits(rule)
    ensures ServerFits(Object(Serving(rule))) && LeftIn(Serving(rule)) == []
  {
    ServerNamesAreLower();
    hide IsLower, RuleFits;
    OneSpelling(Serving(rule));
    OnlyField("routes", Array([rule]));
    assert Spellings(Serving(rule), "routes") - {"routes"} == {};
  }

  lemma OneForeign(live: Json, keys: set<string>)
    requires RuleFits(live) && !Managed(live, keys)
    ensures Keep([live], keys) == [live] && ReadOver([], [live]) == RuleRoutes(DecodeRule(live).value)
  {
    hide Managed, RuleFits, RuleRoutes, RuleInto;
    assert [live][..0] == [];
    var rule := SeenRule(RuleInto(NO_RULE, live));
    assert Map(ItemsInto([], [live], NO_RULE, RuleInto), SeenRule) == [rule];
    assert [rule][..0] == [];
    assert Collected([rule]) == [] + RuleRoutes(rule);
  }

  lemma OneWins(theirs: HTTPRoute, ours: HTTPRoute)
    requires RouteKey(theirs) == RouteKey(ours) && RouteLess(Normal(ours), theirs)
    requires SortStrings(theirs.upstreams) != SortStrings(ours.upstreams)
    ensures !Harmless([theirs], [ours])
  {
    hide RouteKey, RouteLess, SortStrings, Normal;
    SortedUnder([theirs], RouteKey(ours));
    assert ours in [ours];
  }

  /** Drift is there, in a config that can be read. */
  ghost predicate Drifts(current: Option<Json>, ours: HTTPRoute) {
    var extracted := Extracted(MergedWith(current, [ours]));
    && RootOf(current).Merged? && Extracted(current).Ok?
    && extracted.Ok? && Diagnosis(ours, extracted.value).verdict != Healthy
  }

  lemma OneIsUnhealthy(current: Option<Json>, ours: HTTPRoute)
    requires RootOf(current).Merged? && Extracted(current).Ok? && WellFormed(ours) && Spared(current, [ours])
    requires !Harmless(Foreign(current, [ours]), [ours])
    ensures Drifts(current, ours)
  {
    hide Extracted, Diagnosis, WellFormed, Spared, Harmless, Foreign, Readable, Consistent, MergedWith;
    MergeThenDiagnose(current, [ours]);
    assert forall e :: e in [ours] <==> e == ours;
  }

  /** One unmanaged live route that the reader finds under the key of the wanted route, sorted after it
      and leading elsewhere, keeps the report from being clean. */
  lemma ForeignRouteDrifts(live: Json, theirs: HTTPRoute, ours: HTTPRoute)
    requires WellFormed(ours) && DecodeRule(live).Some? && RuleRoutes(DecodeRule(live).value) == [theirs]
    requires !Managed(live, KeysOf([ours])) && RouteKey(theirs) == RouteKey(ours)
    requires RouteLess(Normal(ours), theirs) && SortStrings(theirs.upstreams) != SortStrings(ours.upstreams)
    ensures Drifts(Some(LiveConfig(Serving(live))), ours)
  {
    hide Extracted, Diagnosis, WellFormed, Managed, RuleFits, RuleInto, RuleRoutes, RouteKey, RouteLess, SortStrings, Normal;
    hide LiveConfig, ReadOver, Keep, LeftIn, Harmless, Drifts;
    var current := Some(LiveConfig(Serving(live)));
    LiveConfigHolds(Serving(live));
    ServingFits(live);
    LiveConfigFits(Serving(live));
    OneForeign(live, KeysOf([ours]));
    assert LiveRoutes(current) == [live];
    OneWins(theirs, ours);
    OneIsUnhealthy(current, ours);
  }

  // ---- A host that sorts after the wanted one ----

  /** The same host, with a blank after it. */
  function Padded(host: string): string {
    host + " "
  }

  lemma TrimPaddedHost(host: string)
    ensures TrimSpace(ToLower(Padded(host))) == TrimSpace(ToLower(host))
  {
    var s := ToLower(host);
    assert ToLower(Padded(host)) == s + " ";
    var i, j := TrimParts(s, IsSpace);
    assert s + " " == s[..i] + s[i..j] + (s[j..] + " ");
    TrimPadded(s[..i], s[i..j], s[j..] + " ", IsSpace);
  }

  lemma {:induction false} PaddedIsGreater(host: string)
    ensures StrLess(host, Padded(host))
  {
    if host != [] {
      assert Padded(host)[1..] == Padded(host[1..]);
      PaddedIsGreater(host[1..]);
    }
  }

  /** An upstream that the wanted route does not go to alone. */
  function Elsewhere(ours: HTTPRoute): string {
    if SortStrings(ours.upstreams) == ["other:1"] then "other:2" else "other:1"
  }

  lemma ElsewhereIsOther(ours: HTTPRoute)
    ensures SortStrings([Elsewhere(ours)]) == [Elsewhere(ours)] != SortStrings(ours.upstreams)
    ensures !Blank(Elsewhere(ours))
  {
    SortedIsFixed([Elsewhere(ours)], StrLess);
    TrimCleanIsIdentity("other:1", IsSpace);
    TrimCleanIsIdentity("other:2", IsSpace);
    hide SortStrings, TrimSpace;
    assert "other:1"[6] != "other:2"[6];
    assert ["other:1"][0] != ["other:2"][0];
  }

  function Theirs(ours: HTTPRoute): HTTPRoute {
    HTTPRoute(Padded(ours.host), ours.matchType, ours.matchValue, false, "", 0, [Elsewhere(ours)])
  }

  lemma TheirsFollow(ours: HTTPRoute)
    ensures RouteKey(Theirs(ours)) == RouteKey(ours) && RouteLess(Normal(ours), Theirs(ours))
    ensures SortStrings(Theirs(ours).upstreams) != SortStrings(ours.upstreams)
  {
    TrimPaddedHost(ours.host);
    PaddedIsGreater(ours.host);
    ElsewhereIsOther(ours);
    hide Elsewhere, SortStrings, TrimSpace, MatcherSummary, Padded, RouteSpecificity, ValueLength;
    assert Padded(ours.host) != ours.host by {
      StrLessIrreflexive(ours.host);
    }
  }

  function Proxy(dial: string): Handler {
    Handler("reverse_proxy", {}, [dial], "", [])
  }

  lemma ProxyReads(dial: string)
    requires !Blank(dial)
    ensures ReadHandlers([Proxy(dial)]) == HandlerView([dial], false, "")
  {
    assert [Proxy(dial)][..0] == [];
    NonBlankAll(Proxy(dial).upstreams);
    assert [] + Proxy(dial).upstreams == [dial];
    assert ReadHandlers([Proxy(dial)]) == ReadHandler(HandlerView([], false, ""), Proxy(dial));
  }

  lemma TheirRuleReads(m: Match, ours: HTTPRoute)
    requires ReadMatcher(MatcherView([], "host", ""), m) == MatcherView([Padded(ours.host)], ours.matchType, ours.matchValue)
    ensures RuleRoutes(RouteRule([m], [Proxy(Elsewhere(ours))], false)) == [Theirs(ours)]
  {
    hide ReadMatcher, Elsewhere;
    var dial := Elsewhere(ours);
    ElsewhereIsOther(ours);
    ProxyReads(dial);
    assert [m][..0] == [];
    assert ReadMatchers([m]) == ReadMatcher(MatcherView([], "host", ""), m);
    OneHostOneRoute(RouteRule([m], [Proxy(dial)], false), Padded(ours.host), ours.matchType, ours.matchValue, HandlerView([dial], false, ""));
  }

  lemma OtherKeyNotManaged(route: Json, m: JsonObject, host: string, ours: HTTPRoute)
    requires Matchers(route) == [Object(m)] && "host" in m && m["host"] == EncodeStrings([host])
    requires MatcherKey(m, host) != RouteKey(ours)
    ensures !Managed(route, KeysOf([ours]))
  {
    hide RouteKey, MatcherKey, Matchers;
    assert m["host"].items == [String(host)];
    assert !MatcherHasKey(Object(m), RouteKey(ours));
    assert KeysOf([ours]) == {RouteKey(ours)};
  }

  // ---- A blank exact path next to a prefix ----

  function BlankExact(host: string, prefix: string): Match {
    Match([host], [prefix], [""])
  }

  function BlankExactRule(host: string, prefix: string, dial: string): Json {
    EncodeRule(RouteRule([BlankExact(host, prefix)], [Proxy(dial)], false))
  }

  function BlankExactMatcher(host: string, prefix: string): JsonObject {
    map["host" := EncodeStrings([host]), "path_prefix" := EncodeStrings([prefix]), "path_exact" := EncodeStrings([""])]
  }

  lemma BlankExactEncodes(host: string, prefix: string, dial: string)
    ensures Matchers(BlankExactRule(host, prefix, dial)) == [Object(BlankExactMatcher(host, prefix))]
    ensures MatcherPath(BlankExactMatcher(host, prefix)) == ("host", "")
  {
    hide EncodeHandlerJson;
    assert EncodeMatch(BlankExact(host, prefix)) == Object(BlankExactMatcher(host, prefix));
  }

  lemma PrefixKeyIsLonger(ours: HTTPRoute)
    requires ours.matchType == "path_prefix"
    ensures RouteKey(HTTPRoute(Padded(ours.host), "host", "", false, "", 0, [])) != RouteKey(ours)
  {
    TypesAreNormal();
    TrimPaddedHost(ours.host);
    var h := TrimSpace(ToLower(ours.host));
    JoinThree(h, "host", TrimSpace(""), "|");
    JoinThree(h, "path_prefix", TrimSpace(ours.matchValue), "|");
    assert |TrimSpace("")| == 0;
  }

  lemma BlankExactNotManaged(ours: HTTPRoute)
    requires ours.matchType == "path_prefix"
    ensures !Managed(BlankExactRule(Padded(ours.host), ours.matchValue, Elsewhere(ours)), KeysOf([ours]))
  {
    hide RouteKey, Matchers, Managed, BlankExactRule, BlankExactMatcher, MatcherPath, KeysOf, Padded;
    var host, prefix, dial := Padded(ours.host), ours.matchValue, Elsewhere(ours);
    BlankExactEncodes(host, prefix, dial);
    PrefixKeyIsLonger(ours);
    BlankExactHosts(host, prefix);
    OtherKeyNotManaged(BlankExactRule(host, prefix, dial), BlankExactMatcher(host, prefix), host, ours);
  }

  lemma BlankExactHosts(host: string, prefix: string)
    ensures var m := BlankExactMatcher(host, prefix); "host" in m && m["host"] == EncodeStrings([host])
  {
    hide EncodeStrings;
  }

  /** The writer takes the blank exact path for a catch-all host, the reader goes on to the prefix: so for
      every wanted prefix route there is a live config that keeps it from being healthy. */
  lemma BlankExactPathDrifts(ours: HTTPRoute)
    requires WellFormed(ours) && ours.matchType == "path_prefix"
    ensures Drifts(Some(LiveConfig(Serving(BlankExactRule(Padded(ours.host), ours.matchValue, Elsewhere(ours))))), ours)
  {
    WellFormedIsNormal(ours);
    var m := BlankExact(Padded(ours.host), ours.matchValue);
    assert [] + m.host == m.host;
    hide WellFormed, Padded, SortStrings, EncodeRule, RuleRoutes, RouteKey, RouteLess, Normal;
    hide Managed, KeysOf, LiveConfig, Serving, Drifts, DecodeRule, TrimSpace, Elsewhere;
    assert TrimSpace("") == "" by { TrimCleanIsIdentity("", IsSpace); }
    TheirRuleReads(m, ours);
    DecodeEncodedRule(RouteRule([m], [Proxy(Elsewhere(ours))], false));
    BlankExactNotManaged(ours);
    TheirsFollow(ours);
    ForeignRouteDrifts(BlankExactRule(Padded(ours.host), ours.matchValue, Elsewhere(ours)), Theirs(ours), ours);
  }

  // ---- A member name in another case ----

  function CapitalMatcher(host: string): Json {
    Object(map["Host" := EncodeStrings([host])])
  }

  function CapitalRule(host: string, dial: string): Json {
    Object(map[
      "match" := Array([CapitalMatcher(host)]),
      "handle" := Array([EncodeHandlerJson(Proxy(dial))])])
  }

  lemma CapitalSpellings(host: string)
    ensures var m := CapitalMatcher(host).members;
            && Spellings(m, "host") == {"Host"} && Spellings(m, "path_prefix") == {} == Spellings(m, "path_exact")
  {
    hide EncodeStrings;
    var m := CapitalMatcher(host).members;
    assert ToLower("Host") == "host";
    RuleNamesAreLower();
    LowerIdempotent("host");
    LowerIdempotent("path_prefix");
    LowerIdempotent("path_exact");
    assert |"path_prefix"| != 4 && |"path_exact"| != 4;
  }

  lemma CapitalMatcherReads(host: string)
    ensures MatchFits(CapitalMatcher(host)) && SeenMatch(MatchInto(NO_MATCH, CapitalMatcher(host))) == Match([host], [], [])
  {
    hide Spellings, EncodeStrings, StringsInto, StringsFit;
    CapitalSpellings(host);
    ReadEncodedStrings([host]);
    OnlySpelling(CapitalMatcher(host).members, "host", "Host", Slots([], []), StringsInto);
  }

  lemma OnlySpelling<T>(m: JsonObject, key: string, name: string, prev: T, into: (T, Json) -> T)
    requires Spellings(m, key) == {name}
    ensures FieldInto(m, key, prev, into) == into(prev, m[name])
  {
    var names := Spellings(m, key);
    assert LastName(names) == name && names - {name} == {};
    assert MembersInto(m, names - {name}, prev, into) == prev;
  }

  lemma CapitalMembers(host: string, dial: string)
    ensures var m := CapitalRule(host, dial).members;
            Spellings(m, "match") == {"match"} && Spellings(m, "handle") == {"handle"} && Spellings(m, "terminal") == {}
  {
    RuleNamesAreLower();
    hide Spellings, IsLower, EncodeHandlerJson, CapitalMatcher;
    OneSpelling(CapitalRule(host, dial).members);
  }

  lemma CapitalListsRead(host: string, dial: string)
    ensures var j := Array([CapitalMatcher(host)]);
            MatchesFit(j) && Map(MatchesInto(Slots([], []), j).shown, SeenMatch) == [Match([host], [], [])]
    ensures var j := Array([EncodeHandlerJson(Proxy(dial))]);
            HandlersFit(j) && Map(HandlersInto(Slots([], []), j).shown, SeenHandler) == [Proxy(dial)]
  {
    hide CapitalMatcher, MatchInto, MatchFits, SeenMatch, EncodeHandlerJson, HandlerInto, HandlerFits, SeenHandler, Proxy;
    CapitalMatcherReads(host);
    ReadEncodedHandler(Proxy(dial));
    assert MatchesInto(Slots([], []), Array([CapitalMatcher(host)])).shown == [MatchInto(NO_MATCH, CapitalMatcher(host))];
    var handler := EncodeHandlerJson(Proxy(dial));
    assert HandlersInto(Slots([], []), Array([handler])).shown == [HandlerInto(NO_HANDLER, handler)];
  }

  lemma CapitalReads(host: string, dial: string)
    ensures DecodeRule(CapitalRule(host, dial)) == Some(RouteRule([Match([host], [], [])], [Proxy(dial)], false))
  {
    hide Spellings, FieldInto, CapitalMatcher, MatchesInto, MatchesFit;
    hide SeenMatch, EncodeHandlerJson, HandlersInto, HandlersFit, SeenHandler, Proxy;
    CapitalMembers(host, dial);
    CapitalListsRead(host, dial);
  }

  lemma CapitalNotManaged(host: string, dial: string, keys: set<string>)
    ensures !Managed(CapitalRule(host, dial), keys)
  {
    var m := CapitalMatcher(host);
    assert Matchers(CapitalRule(host, dial)) == [m];
    assert "host" !in m.members by { assert "host"[0] != "Host"[0]; }
    assert forall key :: !MatcherHasKey(m, key);
  }

  /** The writer does not see a host spelled "Host", the reader does: so for every wanted host route there
      is a live config that keeps it from being healthy. */
  lemma CapitalHostDrifts(ours: HTTPRoute)
    requires WellFormed(ours) && ours.matchType == "host"
    ensures Drifts(Some(LiveConfig(Serving(CapitalRule(Padded(ours.host), Elsewhere(ours))))), ours)
  {
    hide SortStrings, RuleRoutes, RouteKey, RouteLess, Normal, Managed, KeysOf;
    hide LiveConfig, Serving, Drifts, DecodeRule, TrimSpace, CapitalRule, Padded, Elsewhere;
    var m := Match([Padded(ours.host)], [], []);
    assert [] + m.host == m.host;
    TheirRuleReads(m, ours);
    CapitalReads(Padded(ours.host), Elsewhere(ours));
    CapitalNotManaged(Padded(ours.host), Elsewhere(ours), KeysOf([ours]));
    TheirsFollow(ours);
    ForeignRouteDrifts(CapitalRule(Padded(ours.host), Elsewhere(ours)), Theirs(ours), ours);
  }

  /** So even a reconcile without projects, which serves the controller alone, can leave drift. */
  lemma ReconcileLeavesDrift(rootDomain: string, port: string)
    requires Trimmed(rootDomain) && rootDomain != ""
    ensures var admin := AdminRoute(rootDomain, port);
            var current := Some(LiveConfig(Serving(CapitalRule(Padded(admin.host), Elsewhere(admin)))));
            var extracted := Extracted(MergedWith(current, WantedRoutes(rootDomain, [], port)));
            && ProjectsAgree(rootDomain, [], port)
            && RootOf(current).Merged? && Extracted(current).Ok? && extracted.Ok?
            && HealthyIn(Diagnoses(ExpectedRoutes(rootDomain, [], port), extracted.value)) < |ExpectedRoutes(rootDomain, [], port)|
  {
    var admin := AdminRoute(rootDomain, port);
    assert WantedRoutes(rootDomain, [], port) == [admin];
    WantedWellFormed(rootDomain, [], port);
    ExpectedAreWanted(rootDomain, [], port);
    MultisetMembers(ExpectedRoutes(rootDomain, [], port), [admin]);
    assert admin in [admin] && admin.matchType == "host";
    hide Extracted, Diagnosis, WellFormed, WantedRoutes, ExpectedRoutes, AdminRoute;
    hide SortStrings, CapitalRule, LiveConfig, Serving, MergedWith, Padded, Elsewhere;
    CapitalHostDrifts(admin);
    var current := Some(LiveConfig(Serving(CapitalRule(Padded(admin.host), Elsewhere(admin)))));
    var extracted := Extracted(MergedWith(current, [admin]));
    HealthyMeansAll(ExpectedRoutes(rootDomain, [], port), [admin], extracted.value);
    AllHealthy(Diagnoses(ExpectedRoutes(rootDomain, [], port), extracted.value));
  }

  // ---- Routes under two spellings ----

  function PathMatcher(): JsonObject {
    map["path_prefix" := EncodeStrings(["/p"])]
  }

  function PathRule(): JsonObject {
    map["match" := Array([Object(PathMatcher())])]
  }

  /** A server that spells its routes with a capital letter. */
  function Capital(): JsonObject {
    map["Routes" := Array([Object(PathRule())])]
  }

  lemma PathRuleReads()
    ensures RuleFits(Object(PathRule()))
    ensures RuleInto(NO_RULE, Object(PathRule())) == NO_RULE.(matches := Slots([NO_MATCH.(pathPrefix := Slots(["/p"], []))], []))
  {
    RuleNamesAreLower();
    hide Spellings, IsLower, FieldInto, EncodeStrings, StringsInto, StringsFit;
    OneSpelling(PathMatcher());
    OneSpelling(PathRule());
    ReadEncodedStrings(["/p"]);
    var m := MatchInto(NO_MATCH, Object(PathMatcher()));
    assert m == NO_MATCH.(pathPrefix := Slots(["/p"], []));
    assert MatchFits(Object(PathMatcher()));
    assert MatchesInto(Slots([], []), Array([Object(PathMatcher())])) == Slots([m], []);
  }

  lemma CapitalRoutesSpelled()
    ensures Spellings(Capital(), "routes") == {"Routes"} && Spellings(Capital(), "listen") == {}
    ensures Spellings(Capital(), "routes") - {"routes"} == {"Routes"}
  {
    hide PathRule;
    assert ToLower("Routes") == "routes" && ToLower("routes") == "routes";
    assert ToLower("listen")[0] == 'l';
    assert "routes"[0] != "Routes"[0];
  }

  lemma CapitalLeaves()
    ensures ServerFits(Object(Capital()))
    ensures LeftIn(Capital()) == [RuleInto(NO_RULE, Object(PathRule()))]
  {
    PathRuleReads();
    hide RuleFits, RuleInto, PathRule, Spellings, FieldInto;
    CapitalRoutesSpelled();
    OnlySpelling(Capital(), "routes", "Routes", Slots([], []), RulesInto);
    assert RulesInto(Slots([], []), Array([Object(PathRule())])) == Slots([RuleInto(NO_RULE, Object(PathRule()))], []);
    CapitalIsAllThatIsLeft();
  }

  lemma CapitalIsAllThatIsLeft()
    ensures LeftIn(Capital()) == FieldInto(Capital(), "routes", Slots([], []), RulesInto).Cells()
  {
    hide RulesInto, Capital, Spellings;
    CapitalRoutesSpelled();
  }

  /** Nothing is managed, kept or foreign here: the wanted host route is decoded into the route that was
      there, and reads back with its path. */
  lemma SecondSpellingDrifts(ours: HTTPRoute)
    requires WellFormed(ours) && ours.matchType == "host" && '|' !in ours.host
    ensures LiveRoutes(Some(LiveConfig(Capital()))) == [] && Foreign(Some(LiveConfig(Capital())), [ours]) == []
    ensures Drifts(Some(LiveConfig(Capital())), ours)
  {
    hide Extracted, Diagnosis, WellFormed, Spared, Foreign, RouteKey, Readable, MergedWith, LiveConfig, Capital, LiveRoutes;
    var current := Some(LiveConfig(Capital()));
    CapitalHolds(ours);
    StaysReadable(current, [ours]);
    ReadableIff(current, [ours]);
    OneIsCovered(current, ours);
    CleanIffSpared(current, [ours]);
    assert forall e :: e in [ours] <==> e == ours;
  }

  lemma CapitalHolds(ours: HTTPRoute)
    ensures var current := Some(LiveConfig(Capital()));
            && RootOf(current).Merged? && Extracted(current).Ok?
            && LiveRoutes(current) == [] && Foreign(current, [ours]) == []
            && Left(current) == [NO_RULE.(matches := Slots([NO_MATCH.(pathPrefix := Slots(["/p"], []))], []))]
  {
    LiveConfigHolds(Capital());
    CapitalLeaves();
    PathRuleReads();
    NoRoutesLive();
    hide Extracted, LiveConfig, Capital, PathRule, RuleInto, LeftIn, ServerFits, RoutesOfServer;
    LiveConfigFits(Capital());
  }

  lemma NoRoutesLive()
    ensures RoutesOfServer(Capital()) == []
  {
    assert "routes" !in Capital() by { assert "routes"[0] != "Routes"[0]; }
  }

  lemma OneIsCovered(current: Option<Json>, ours: HTTPRoute)
    requires Left(current) == [NO_RULE.(matches := Slots([NO_MATCH.(pathPrefix := Slots(["/p"], []))], []))]
    requires LiveRoutes(current) == [] && ours.matchType == "host"
    ensures !Spared(current, [ours])
  {
    hide Left, LiveRoutes;
    TrimCleanIsIdentity("/p", IsSpace);
    SortedIsFixed([ours], RouteLess);
    var cell := Left(current)[0];
    assert cell.matches.Cells() == cell.matches.shown;
    assert Covers(cell, ours);
    assert LeftForWanted(current, [ours])[0] == cell;
  }
}
