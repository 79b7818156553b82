/** From projects to managed routes, and from the live config back to a drift report. */
module ProjectRoutes {
  import opened Text
  import opened Sequences
  import opened Sorting
  import opened CaddyRoutes
  import opened CaddyJson
  import opened CaddyMerge
  import opened RouteText

  /** What routing needs of a project. */
  datatype Project = Project(
    kind: string,
    fullDomain: string,
    customDomains: seq<string>,
    containerName: string,
    internalPort: nat,
    httpRoutes: seq<ProjectHTTPRoute>)

  const WEB := "web"
  const CONTROLLER := "caddytower"
  const DEFAULT_ROUTE := ProjectHTTPRoute("", HOST, "", false, "", 0)

  // ---- Hosts ----

  /** Add a host once, when there is one. */
  function AddHost(hosts: seq<string>, host: string): seq<string> {
    var h := NormalizeHostname(host);
    if h == "" || h in hosts then hosts else hosts + [h]
  }

  function CollectHosts(names: seq<string>): seq<string> {
    if names == [] then [] else AddHost(CollectHosts(names[..|names| - 1]), names[|names| - 1])
  }

  function RouteHosts(project: Project): seq<string> {
    SortStrings(CollectHosts(DomainNames(project)))
  }

  function DomainNames(project: Project): seq<string> {
    [project.fullDomain] + project.customDomains
  }

  /** The list is strictly increasing, and its members are the non-empty normal forms of the names. */
  ghost predicate HostsOf(hosts: seq<string>, names: seq<string>) {
    && (forall h :: h in hosts <==> h != "" && exists name :: name in names && NormalizeHostname(name) == h)
    && (forall i, j :: 0 <= i < j < |hosts| ==> StrLess(hosts[i], hosts[j]))
  }

  lemma {:induction false} CollectedHosts(names: seq<string>)
    ensures forall h :: h in CollectHosts(names) <==> h != "" && exists name :: name in names && NormalizeHostname(name) == h
    ensures forall i, j :: 0 <= i < j < |CollectHosts(names)| ==> CollectHosts(names)[i] != CollectHosts(names)[j]
  {
    hide NormalizeHostname;
    if names != [] {
      var front, last := names[..|names| - 1], names[|names| - 1];
      CollectedHosts(front);
      assert names == front + [last];
    }
  }

  lemma {:induction false} DistinctOnce(values: seq<string>, v: string)
    requires forall i, j :: 0 <= i < j < |values| ==> values[i] != values[j]
    ensures multiset(values)[v] <= 1
  {
    if values != [] {
      DistinctOnce(values[1..], v);
      assert values == [values[0]] + values[1..];
    }
  }

  lemma PermutedStaysDistinct(values: seq<string>, sorted: seq<string>, i: nat, j: nat)
    requires forall i, j :: 0 <= i < j < |values| ==> values[i] != values[j]
    requires multiset(sorted) == multiset(values) && i < j < |sorted|
    ensures sorted[i] != sorted[j]
  {
    if sorted[i] == sorted[j] {
      TwiceInMultiset(sorted, i, j);
      DistinctOnce(values, sorted[i]);
    }
  }

  lemma SortedDistinctIncreases(values: seq<string>, sorted: seq<string>)
    requires forall i, j :: 0 <= i < j < |values| ==> values[i] != values[j]
    requires SortOf(sorted, values, StrLess)
    ensures forall i, j :: 0 <= i < j < |sorted| ==> StrLess(sorted[i], sorted[j])
  {
    hide StrLess;
    forall i, j | 0 <= i < j < |sorted| ensures StrLess(sorted[i], sorted[j]) {
      PermutedStaysDistinct(values, sorted, i, j);
      StrLessTotal(sorted[i], sorted[j]);
      assert !StrLess(sorted[j], sorted[i]);
    }
  }

  lemma RouteHostsAreHosts(project: Project)
    ensures HostsOf(RouteHosts(project), DomainNames(project))
  {
    hide NormalizeHostname, CollectHosts, StrLess;
    var collected := CollectHosts(DomainNames(project));
    CollectedHosts(DomainNames(project));
    SortStringsIsSortOf(collected);
    SortedDistinctIncreases(collected, RouteHosts(project));
  }

  method EffectiveProjectRouteHosts(project: Project) returns (hosts: seq<string>)
    ensures hosts == RouteHosts(project)
    ensures HostsOf(hosts, DomainNames(project))
  {
    hide NormalizeHostname, SortStrings, HostsOf;
    RouteHostsAreHosts(project);
    var names := [project.fullDomain] + project.customDomains;
    var seen: set<string> := {};
    hosts := [];
    for n := 0 to |names|
      invariant hosts == CollectHosts(names[..n])
      invariant forall h :: h in seen <==> h in hosts
    {
      assert names[..n + 1][..n] == names[..n];
      var host := NormalizeHostname(names[n]);
      if host != "" && host !in seen {
        seen := seen + {host};
        hosts := hosts + [host];
      }
    }
    assert names[..|names|] == names;
    hosts := SortStrings(hosts);
  }

  // ---- Expanding a project ----

  function HostRoute(spec: ProjectHTTPRoute, host: string, upstream: string): HTTPRoute {
    HTTPRoute(host, NormalizeMatchType(spec.matchType), TrimSpace(spec.matchValue), spec.stripPrefix,
              TrimSpace(spec.rewritePrefix), spec.priority, [upstream])
  }

  function TargetHosts(spec: ProjectHTTPRoute, hosts: seq<string>): seq<string> {
    if Blank(spec.hostname) then hosts else [NormalizeHostname(spec.hostname)]
  }

  function OnHosts(spec: ProjectHTTPRoute, hosts: seq<string>, upstream: string): seq<HTTPRoute> {
    if hosts == [] then []
    else
      var front, last := OnHosts(spec, hosts[..|hosts| - 1], upstream), hosts[|hosts| - 1];
      if Blank(last) then front else front + [HostRoute(spec, last, upstream)]
  }

  function Expanded(specs: seq<ProjectHTTPRoute>, hosts: seq<string>, upstream: string): seq<HTTPRoute> {
    if specs == [] then []
    else
      var last := specs[|specs| - 1];
      Expanded(specs[..|specs| - 1], hosts, upstream) + OnHosts(last, TargetHosts(last, hosts), upstream)
  }

  predicate KeyLess(a: HTTPRoute, b: HTTPRoute) {
    StrLess(RouteKey(a), RouteKey(b))
  }

  function Upstream(project: Project): string {
    project.containerName + ":" + Itoa(project.internalPort)
  }

  /** A project without routes of its own serves all its hosts. */
  function SpecsOf(project: Project): seq<ProjectHTTPRoute> {
    if project.httpRoutes == [] then [DEFAULT_ROUTE] else project.httpRoutes
  }

  function ProjectRoutesOf(project: Project): seq<HTTPRoute> {
    if project.kind != WEB || RouteHosts(project) == [] then []
    else Sort(Expanded(SpecsOf(project), RouteHosts(project), Upstream(project)), KeyLess)
  }

  method RoutesOnHosts(route: ProjectHTTPRoute, targetHosts: seq<string>, upstream: string) returns (routes: seq<HTTPRoute>)
    ensures routes == OnHosts(route, targetHosts, upstream)
  {
    routes := [];
    for k := 0 to |targetHosts|
      invariant routes == OnHosts(route, targetHosts[..k], upstream)
    {
      assert targetHosts[..k + 1][..k] == targetHosts[..k];
      var host := targetHosts[k];
      if TrimSpace(host) == "" {
        continue;
      }
      routes := routes + [HTTPRoute(host, NormalizeMatchType(route.matchType), TrimSpace(route.matchValue),
                                    route.stripPrefix, TrimSpace(route.rewritePrefix), route.priority, [upstream])];
    }
    assert targetHosts[..|targetHosts|] == targetHosts;
  }

  method ExpandedProjectRoutes(project: Project) returns (routes: seq<HTTPRoute>)
    ensures routes == ProjectRoutesOf(project)
  {
    if project.kind != WEB {
      return [];
    }
    var hosts := EffectiveProjectRouteHosts(project);
    if |hosts| == 0 {
      return [];
    }
    var upstream := project.containerName + ":" + Itoa(project.internalPort);
    var projectRoutes := project.httpRoutes;
    if |projectRoutes| == 0 {
      projectRoutes := [ProjectHTTPRoute("", HOST, "", false, "", 0)];
    }
    routes := [];
    for n := 0 to |projectRoutes|
      invariant routes == Expanded(projectRoutes[..n], hosts, upstream)
    {
      assert projectRoutes[..n + 1][..n] == projectRoutes[..n];
      var route := projectRoutes[n];
      var targetHosts := hosts;
      if TrimSpace(route.hostname) != "" {
        targetHosts := [NormalizeHostname(route.hostname)];
      }
      var more := RoutesOnHosts(route, targetHosts, upstream);
      routes := routes + more;
    }
    assert projectRoutes[..|projectRoutes|] == projectRoutes;
    routes := Sort(routes, KeyLess);
  }

  lemma KeyLessIsStrictWeakOrder()
    ensures StrictWeakOrder(KeyLess)
  {
    forall a, b, c
      ensures !KeyLess(a, a)
      ensures KeyLess(a, b) && KeyLess(b, c) ==> KeyLess(a, c)
      ensures KeyLess(a, c) ==> KeyLess(a, b) || KeyLess(b, c)
    {
      StrLessTriple(RouteKey(a), RouteKey(b), RouteKey(c));
    }
  }

  lemma SortByKeyMembers(routes: seq<HTTPRoute>)
    ensures forall r :: r in Sort(routes, KeyLess) <==> r in routes
    ensures |Sort(routes, KeyLess)| == |routes|
  {
    KeyLessIsStrictWeakOrder();
    SortIsSortOf(routes, KeyLess);
    MultisetMembers(Sort(routes, KeyLess), routes);
  }

  // ---- Which routes a project expands to ----

  /** A host that a spec is served on: the project has hosts, and this is one of them, or the one that the
      spec names. */
  predicate ServedOn(project: Project, spec: ProjectHTTPRoute, host: string) {
    var names := [project.fullDomain] + project.customDomains;
    && !Blank(host)
    && (exists name :: name in names && NormalizeHostname(name) != "")
    && if Blank(spec.hostname) then exists name :: name in names && NormalizeHostname(name) == host
       else host == NormalizeHostname(spec.hostname)
  }

  /** The route says what the spec says, and leads to the project's container. */
  predicate SaysAs(project: Project, spec: ProjectHTTPRoute, r: HTTPRoute) {
    && r.matchType == (if TrimSpace(ToLower(spec.matchType)) in ["path_prefix", "prefix"] then "path_prefix"
                       else if TrimSpace(ToLower(spec.matchType)) in ["path_exact", "exact"] then "path_exact" else "host")
    && r.matchValue == TrimSpace(spec.matchValue)
    && r.stripPrefix == spec.stripPrefix
    && r.rewritePrefix == TrimSpace(spec.rewritePrefix)
    && r.priority == spec.priority
    && r.upstreams == [project.containerName + ":" + Itoa(project.internalPort)]
  }

  lemma HostRouteSays(project: Project, spec: ProjectHTTPRoute, r: HTTPRoute)
    ensures r == HostRoute(spec, r.host, Upstream(project)) <==> SaysAs(project, spec, r)
  {
    hide TrimSpace, ToLower, Itoa;
  }

  lemma {:induction false} ExpandedMembers(specs: seq<ProjectHTTPRoute>, hosts: seq<string>, upstream: string, r: HTTPRoute)
    ensures r in Expanded(specs, hosts, upstream) <==>
              exists spec :: spec in specs && r.host in TargetHosts(spec, hosts) && !Blank(r.host) && r == HostRoute(spec, r.host, upstream)
  {
    hide HostRoute, TargetHosts;
    if specs != [] {
      var front, last := specs[..|specs| - 1], specs[|specs| - 1];
      ExpandedMembers(front, hosts, upstream, r);
      OnHostsMembers(last, TargetHosts(last, hosts), upstream);
      assert forall spec :: spec in specs <==> spec in front || spec == last by {
        assert specs == front + [last];
      }
      HostRouteHost(last, upstream);
    }
  }

  lemma HostRouteHost(spec: ProjectHTTPRoute, upstream: string)
    ensures forall h :: HostRoute(spec, h, upstream).host == h
  {
  }

  lemma TargetsAre(project: Project, spec: ProjectHTTPRoute, host: string)
    ensures RouteHosts(project) != [] && host in TargetHosts(spec, RouteHosts(project)) && !Blank(host) <==> ServedOn(project, spec, host)
  {
    assert Blank("");
    hide NormalizeHostname, TrimSpace, RouteHosts, StrLess;
    RouteHostsAreHosts(project);
    var hosts := RouteHosts(project);
    assert hosts != [] ==> hosts[0] in hosts;
    assert forall name :: name in DomainNames(project) && NormalizeHostname(name) != "" ==> NormalizeHostname(name) in hosts;
  }

  /** A route is among those of a project exactly when the project is a web project and the route says,
      for a host that it is served on, what one of the project's specs says; a project without specs has
      one for all its hosts. */
  lemma ProjectRoutesAre(project: Project, r: HTTPRoute)
    ensures r in ProjectRoutesOf(project) <==>
              && project.kind == "web"
              && exists spec ::
                   && spec in (if project.httpRoutes == [] then [ProjectHTTPRoute("", "host", "", false, "", 0)] else project.httpRoutes)
                   && ServedOn(project, spec, r.host) && SaysAs(project, spec, r)
  {
    hide HostRoute, ServedOn, SaysAs, RouteHosts, TargetHosts, Upstream, TrimSpace;
    var specs, hosts := SpecsOf(project), RouteHosts(project);
    SortByKeyMembers(Expanded(specs, hosts, Upstream(project)));
    ExpandedMembers(specs, hosts, Upstream(project), r);
    forall spec | spec in specs
      ensures hosts != [] && r.host in TargetHosts(spec, hosts) && !Blank(r.host) && r == HostRoute(spec, r.host, Upstream(project))
              <==> ServedOn(project, spec, r.host) && SaysAs(project, spec, r)
    {
      TargetsAre(project, spec, r.host);
      HostRouteSays(project, spec, r);
    }
  }

  /** The hosts of a project. */
  function NormalHosts(project: Project): set<string> {
    set name | name in [project.fullDomain] + project.customDomains && !Blank(NormalizeHostname(name)) :: NormalizeHostname(name)
  }

  /** For each spec, how many hosts it is served on. */
  function Pairs(project: Project, specs: seq<ProjectHTTPRoute>): nat {
    if specs == [] then 0
    else
      var last := specs[|specs| - 1];
      Pairs(project, specs[..|specs| - 1])
      + if Blank(last.hostname) then |NormalHosts(project)| else if Blank(NormalizeHostname(last.hostname)) then 0 else 1
  }

  lemma {:induction false} OnHostsCount(spec: ProjectHTTPRoute, hosts: seq<string>, upstream: string)
    requires forall i, j :: 0 <= i < j < |hosts| ==> hosts[i] != hosts[j]
    ensures |OnHosts(spec, hosts, upstream)| == |set h | h in hosts && !Blank(h)|
  {
    hide HostRoute, TrimSpace;
    if hosts == [] {
      assert (set h | h in hosts && !Blank(h)) == {};
    } else {
      var front, last := hosts[..|hosts| - 1], hosts[|hosts| - 1];
      OnHostsCount(spec, front, upstream);
      assert hosts == front + [last];
      var before := set h | h in front && !Blank(h);
      assert (set h | h in hosts && !Blank(h)) == before + (if Blank(last) then {} else {last});
      assert last !in before;
    }
  }

  lemma HostsCounted(project: Project, spec: ProjectHTTPRoute)
    ensures |OnHosts(spec, RouteHosts(project), Upstream(project))| == |NormalHosts(project)|
  {
    assert Blank("");
    hide NormalizeHostname, TrimSpace, RouteHosts, StrLess, OnHosts;
    RouteHostsAreHosts(project);
    StrLessTotalOrder();
    var hosts := RouteHosts(project);
    OnHostsCount(spec, hosts, Upstream(project));
    assert (set h | h in hosts && !Blank(h)) == NormalHosts(project);
  }

  lemma {:induction false} ExpandedCount(project: Project, specs: seq<ProjectHTTPRoute>)
    ensures |Expanded(specs, RouteHosts(project), Upstream(project))| == Pairs(project, specs)
  {
    hide RouteHosts, Upstream, OnHosts, NormalHosts, TrimSpace, NormalizeHostname;
    if specs != [] {
      var last := specs[|specs| - 1];
      ExpandedCount(project, specs[..|specs| - 1]);
      if Blank(last.hostname) {
        HostsCounted(project, last);
      } else {
        OneHostCount(last, NormalizeHostname(last.hostname), Upstream(project));
      }
    }
  }

  lemma OneHostCount(spec: ProjectHTTPRoute, host: string, upstream: string)
    ensures |OnHosts(spec, [host], upstream)| == if Blank(host) then 0 else 1
  {
    hide TrimSpace;
    assert [host][..0] == [];
  }

  /** They are sorted by key, and there is one for every spec and host. */
  lemma ProjectRoutesCount(project: Project)
    ensures SortedBy(ProjectRoutesOf(project), KeyLess)
    ensures |ProjectRoutesOf(project)| ==
            if project.kind != "web" || (forall name :: name in [project.fullDomain] + project.customDomains ==> NormalizeHostname(name) == "") then 0
            else Pairs(project, if project.httpRoutes == [] then [ProjectHTTPRoute("", "host", "", false, "", 0)] else project.httpRoutes)
  {
    hide RouteHosts, Upstream, Expanded, KeyLess, NormalizeHostname, StrLess;
    RouteHostsAreHosts(project);
    var hosts := RouteHosts(project);
    assert hosts != [] ==> hosts[0] in hosts;
    assert forall name :: name in DomainNames(project) && NormalizeHostname(name) != "" ==> NormalizeHostname(name) in hosts;
    KeyLessIsStrictWeakOrder();
    SortIsSortOf(Expanded(SpecsOf(project), hosts, Upstream(project)), KeyLess);
    SortByKeyMembers(Expanded(SpecsOf(project), hosts, Upstream(project)));
    ExpandedCount(project, SpecsOf(project));
  }

  // ---- Expanded routes are well-formed ----

  lemma ContainsIsNotBlank(s: string, c: char)
    requires c in s && !IsSpace(c)
    ensures !Blank(s)
  {
    if Blank(s) {
      BlankIsAllSpaces(s);
    }
  }

  lemma HostRouteWellFormed(spec: ProjectHTTPRoute, host: string, upstream: string)
    requires Valid(spec) && ':' in upstream
    ensures WellFormed(HostRoute(spec, host, upstream))
  {
    MatchTypeIsNormal(spec.matchType);
    TrimCleanIsIdentity(spec.matchValue, IsSpace);
    TrimIsClean(spec.rewritePrefix, IsSpace);
    ContainsIsNotBlank(upstream, ':');
  }

  lemma {:induction false} OnHostsMembers(spec: ProjectHTTPRoute, hosts: seq<string>, upstream: string)
    ensures forall r :: r in OnHosts(spec, hosts, upstream) <==>
              exists h :: h in hosts && !Blank(h) && r == HostRoute(spec, h, upstream)
  {
    if hosts != [] {
      var front, last := hosts[..|hosts| - 1], hosts[|hosts| - 1];
      OnHostsMembers(spec, front, upstream);
      assert hosts == front + [last];
    }
  }

  lemma {:induction false} ExpandedWellFormed(specs: seq<ProjectHTTPRoute>, hosts: seq<string>, upstream: string)
    requires (forall s :: s in specs ==> Valid(s)) && ':' in upstream
    ensures AllWellFormed(Expanded(specs, hosts, upstream))
  {
    if specs != [] {
      var last := specs[|specs| - 1];
      ExpandedWellFormed(specs[..|specs| - 1], hosts, upstream);
      OnHostsMembers(last, TargetHosts(last, hosts), upstream);
      forall h ensures WellFormed(HostRoute(last, h, upstream)) { HostRouteWellFormed(last, h, upstream); }
    }
  }

  /** A project whose routes the form's parser accepted expands to well-formed routes. */
  lemma ExpandedRoutesWellFormed(project: Project)
    requires Accepted(project.httpRoutes)
    ensures AllWellFormed(ProjectRoutesOf(project))
  {
    var specs := SpecsOf(project);
    forall s | s in specs ensures Valid(s) {
      if project.httpRoutes != [] {
        var k :| 0 <= k < |project.httpRoutes| && project.httpRoutes[k] == s;
      }
    }
    assert ':' in Upstream(project);
    ExpandedWellFormed(specs, RouteHosts(project), Upstream(project));
    SortByKeyMembers(Expanded(specs, RouteHosts(project), Upstream(project)));
  }

  /** What the form shows for a project without routes, saved as it is, expands to the same routes. */
  lemma EmptyExpandsAsPrintedDefault(project: Project)
    requires project.httpRoutes == []
    ensures ParsedRoutes(PrintedRoutes([DEFAULT_ROUTE])) == Ok([DEFAULT_ROUTE])
    ensures ProjectRoutesOf(project.(httpRoutes := [DEFAULT_ROUTE])) == ProjectRoutesOf(project)
  {
    assert Accepted([DEFAULT_ROUTE]);
    PrintableRoundTrips([DEFAULT_ROUTE]);
  }

  // ---- The managed routes of all projects ----

  function AdminHostname(rootDomain: string): string {
    var root := TrimSpace(rootDomain);
    if root == "" then "" else CONTROLLER + "." + if HasPrefix(root, ".") then root[1..] else root
  }

  function AdminRoute(rootDomain: string, port: string): HTTPRoute {
    HTTPRoute(AdminHostname(rootDomain), HOST, "", false, "", -1, [CONTROLLER + ":" + port])
  }

  /** The controller is served on its own name under the root domain, ahead of projects there. */
  lemma AdminRouteIs(rootDomain: string, port: string)
    requires Trimmed(rootDomain) && rootDomain != "" && rootDomain[0] != '.'
    ensures AdminRoute(rootDomain, port) == HTTPRoute("caddytower." + rootDomain, "host", "", false, "", -1, ["caddytower:" + port])
    ensures AdminHostname("." + rootDomain) == AdminHostname(rootDomain)
  {
    TrimCleanIsIdentity(rootDomain, IsSpace);
    TrimCleanIsIdentity("." + rootDomain, IsSpace);
    assert CONTROLLER + "." == "caddytower." && CONTROLLER + ":" == "caddytower:";
    assert !HasPrefix(rootDomain, ".") && HasPrefix("." + rootDomain, ".");
    assert ("." + rootDomain)[1..] == rootDomain;
  }

  function AllProjectRoutes(projects: seq<Project>): seq<HTTPRoute> {
    if projects == [] then []
    else AllProjectRoutes(projects[..|projects| - 1]) + ProjectRoutesOf(projects[|projects| - 1])
  }

  /** The routes that a reconcile wants. */
  function WantedRoutes(rootDomain: string, projects: seq<Project>, port: string): seq<HTTPRoute> {
    (if rootDomain != "" then [AdminRoute(rootDomain, port)] else []) + AllProjectRoutes(projects)
  }

  function KeysOf(routes: seq<HTTPRoute>): set<string> {
    set r | r in routes :: RouteKey(r)
  }

  /** The routes that the diagnostics expect. */
  function ExpectedRoutes(rootDomain: string, projects: seq<Project>, port: string): seq<HTTPRoute> {
    Sort((if AdminHostname(rootDomain) != "" then [AdminRoute(rootDomain, port)] else []) + AllProjectRoutes(projects), KeyLess)
  }

  method RouteKeys(routes: seq<HTTPRoute>) returns (keys: seq<string>)
    ensures keys == Map(routes, RouteKey)
  {
    keys := [];
    for k := 0 to |routes|
      invariant keys == Map(routes, RouteKey)[..k]
    {
      keys := keys + [RouteKey(routes[k])];
    }
  }

  method CollectProjectRoutes(projects: seq<Project>) returns (routes: seq<HTTPRoute>, keys: seq<string>)
    ensures routes == AllProjectRoutes(projects)
    ensures keys == Map(routes, RouteKey)
  {
    routes, keys := [], [];
    for n := 0 to |projects|
      invariant routes == AllProjectRoutes(projects[..n])
      invariant keys == Map(routes, RouteKey)
    {
      assert projects[..n + 1][..n] == projects[..n];
      var more := ExpandedProjectRoutes(projects[n]);
      var moreKeys := RouteKeys(more);
      MapAppend(routes, more, RouteKey);
      routes, keys := routes + more, keys + moreKeys;
    }
    assert projects[..|projects|] == projects;
  }

  method ExpectedManagedRoutes(rootDomain: string, projects: seq<Project>, port: string) returns (routes: seq<HTTPRoute>)
    ensures routes == ExpectedRoutes(rootDomain, projects, port)
  {
    routes := [];
    if AdminHostname(rootDomain) != "" {
      routes := [AdminRoute(rootDomain, port)];
    }
    var more, _ := CollectProjectRoutes(projects);
    routes := Sort(routes + more, KeyLess);
  }

  /** Settings keep the root domain trimmed; then both sides list the same routes. */
  lemma ExpectedAreWanted(rootDomain: string, projects: seq<Project>, port: string)
    requires Trimmed(rootDomain)
    ensures multiset(ExpectedRoutes(rootDomain, projects, port)) == multiset(WantedRoutes(rootDomain, projects, port))
  {
    TrimCleanIsIdentity(rootDomain, IsSpace);
    KeyLessIsStrictWeakOrder();
    SortIsSortOf(WantedRoutes(rootDomain, projects, port), KeyLess);
  }

  // ---- Reconciling ----

  datatype ReconcileError = RootDomainRequired | SettingsUnread | ProjectsUnread | ConfigUnread | NotMergeable | NotNormalizable | LoadFailed

  /** How a reconcile ends: the config changed or did not, an error, or the panic of a store into a nil
      map. */
  datatype Reconciled = Changed(changed: bool) | Failed(error: ReconcileError) | Panicked

  /** The shared Caddy as its admin API shows it. */
  class SharedCaddy {
    var config: Option<Json>
    ghost var loads: nat

    constructor (config: Option<Json>)
      ensures this.config == config && loads == 0
    {
      this.config := config;
      loads := 0;
    }

    /** getOk and loadOk say whether the two requests succeed. */
    method ReconcileManagedRoutes(routes: seq<HTTPRoute>, managedKeys: seq<string>, getOk: bool, loadOk: bool)
        returns (result: Reconciled)
      modifies this
      ensures !getOk ==> result == Failed(ConfigUnread)
      ensures getOk && RootOf(old(config)).NilMap? <==> result == Panicked
      ensures getOk && RootOf(old(config)).NotAnObject? ==> result == Failed(NotMergeable)
      ensures getOk && old(config).None? ==> result == Failed(NotNormalizable)
      ensures !result.Changed? ==> config == old(config) && loads == old(loads)
      ensures result.Changed? ==>
                && getOk && RootOf(old(config)).Merged?
                && config == Some(Object(MergeOf(old(config), routes, set k | k in managedKeys).root))
                && (result.changed <==> config != old(config))
                && loads == old(loads) + (if result.changed then 1 else 0)
      ensures getOk && loadOk && old(config).Some? && RootOf(old(config)).Merged? ==> result.Changed?
    {
      if !getOk {
        return Failed(ConfigUnread);
      }
      var merged := MergeManagedRoutes(config, routes, managedKeys);
      if merged.NilMap? {
        return Panicked;
      }
      if merged.NotAnObject? {
        return Failed(NotMergeable);
      }
      if config.None? {
        return Failed(NotNormalizable);
      }
      if config.value == Object(merged.root) {
        return Changed(false);
      }
      if !loadOk {
        return Failed(LoadFailed);
      }
      config := Some(Object(merged.root));
      loads := loads + 1;
      return Changed(true);
    }

    /** Reconcile the admin route and the routes of all projects. connected says whether there is a
        client at all, settingsOk and projectsOk whether the settings and the projects can be read. */
    method ReconcileCaddy(rootDomain: string, projects: seq<Project>, port: string,
                          connected: bool, settingsOk: bool, projectsOk: bool, getOk: bool, loadOk: bool)
        returns (result: Reconciled)
      modifies this
      ensures
        var wanted := WantedRoutes(rootDomain, projects, port);
        var asked := connected && settingsOk && projectsOk && wanted != [];
        && (!connected ==> result == Changed(false))
        && (connected && !settingsOk ==> result == Failed(SettingsUnread))
        && (connected && settingsOk && !projectsOk ==> result == Failed(ProjectsUnread))
        && (connected && settingsOk && projectsOk && wanted == [] ==> result == Changed(false))
        && (asked && rootDomain == "" ==> result == Failed(RootDomainRequired))
        && (asked && rootDomain != "" && getOk && RootOf(old(config)).NilMap? <==> result == Panicked)
        && (!asked || !result.Changed? ==> config == old(config) && loads == old(loads))
        && (asked && result.Changed? ==>
              && RootOf(old(config)).Merged?
              && config == Some(Object(MergeOf(old(config), wanted, KeysOf(wanted)).root))
              && (result.changed <==> config != old(config)))
        && (asked && getOk && loadOk && rootDomain != "" && old(config).Some? && RootOf(old(config)).Merged? ==> result.Changed?)
    {
      hide MergeOf;
      if !connected {
        return Changed(false);
      }
      if !settingsOk {
        return Failed(SettingsUnread);
      }
      if !projectsOk {
        return Failed(ProjectsUnread);
      }
      var routes: seq<HTTPRoute> := [];
      var managedRouteKeys: seq<string> := [];
      if rootDomain != "" {
        routes := [AdminRoute(rootDomain, port)];
        managedRouteKeys := [RouteKey(routes[0])];
      }
      var more, moreKeys := CollectProjectRoutes(projects);
      MapAppend(routes, more, RouteKey);
      assert managedRouteKeys == Map(routes, RouteKey);
      routes, managedRouteKeys := routes + more, managedRouteKeys + moreKeys;
      if |managedRouteKeys| == 0 {
        return Changed(false);
      }
      if rootDomain == "" {
        return Failed(RootDomainRequired);
      }
      KeysOfMap(routes);
      result := ReconcileManagedRoutes(routes, managedRouteKeys, getOk, loadOk);
    }
  }

  lemma KeysOfMap(routes: seq<HTTPRoute>)
    ensures (set k | k in Map(routes, RouteKey)) == KeysOf(routes)
  {
    var keys := Map(routes, RouteKey);
    forall k | k in KeysOf(routes) ensures k in keys {
      var r :| r in routes && RouteKey(r) == k;
      var i :| 0 <= i < |routes| && routes[i] == r;
      assert keys[i] == k;
    }
  }
}
