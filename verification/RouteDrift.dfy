/** The drift report, and why it is clean after a reconcile. */
module RouteDrift {
  import opened Text
  import opened Sorting
  import opened CaddyRoutes
  import opened CaddyJson
  import opened CaddyExtract
  import opened ProjectRoutes

  datatype Verdict = Missing | Differs | Healthy

  datatype RouteDiagnostic = RouteDiagnostic(
    host: string,
    matcherSummary: string,
    expectedUpstreams: seq<string>,
    liveUpstreams: seq<string>,
    verdict: Verdict)

  datatype Status = Error | Warning | Fine

  datatype Diagnostics = Diagnostics(
    available: bool,
    status: Status,
    managedRouteCount: nat,
    healthyRouteCount: nat,
    driftCount: nat,
    liveRouteCount: nat,
    routes: seq<RouteDiagnostic>)

  /** The last live route under a key. */
  function LiveUnder(live: seq<HTTPRoute>, key: string): Option<HTTPRoute> {
    if live == [] then None
    else if RouteKey(live[|live| - 1]) == key then Some(live[|live| - 1])
    else LiveUnder(live[..|live| - 1], key)
  }

  function Diagnosis(route: HTTPRoute, live: seq<HTTPRoute>): RouteDiagnostic {
    var expected, found := SortStrings(route.upstreams), LiveUnder(live, RouteKey(route));
    var item := RouteDiagnostic(route.host, MatcherSummary(route), expected, [], Missing);
    if found.None? then item
    else
      var item := item.(liveUpstreams := SortStrings(found.value.upstreams));
      if expected != item.liveUpstreams then item.(verdict := Differs) else item.(verdict := Healthy)
  }

  function Diagnoses(expected: seq<HTTPRoute>, live: seq<HTTPRoute>): (items: seq<RouteDiagnostic>)
    ensures |items| == |expected|
  {
    seq(|expected|, i requires 0 <= i < |expected| => Diagnosis(expected[i], live))
  }

  /** The last live route under a key, if there is one: later ones have other keys. */
  lemma {:induction false} LiveUnderMeans(live: seq<HTTPRoute>, key: string)
    ensures LiveUnder(live, key).None? <==> forall r :: r in live ==> RouteKey(r) != key
    ensures forall i :: 0 <= i < |live| && RouteKey(live[i]) == key && (forall j :: i < j < |live| ==> RouteKey(live[j]) != key) ==>
              LiveUnder(live, key) == Some(live[i])
  {
    hide RouteKey;
    if live != [] {
      var front, last := live[..|live| - 1], live[|live| - 1];
      LiveUnderMeans(front, key);
      assert live == front + [last];
      forall i | 0 <= i < |live| && RouteKey(live[i]) == key && (forall j :: i < j < |live| ==> RouteKey(live[j]) != key)
        ensures LiveUnder(live, key) == Some(live[i])
      {
        if i < |front| {
          assert front[i] == live[i] && RouteKey(live[|front|]) != key;
          assert forall j :: i < j < |front| ==> front[j] == live[j];
        }
      }
    }
  }

  /** A line of the report: what is wanted; what is live under the same key, the last such route counting;
      and whether both go to the same places. */
  lemma DiagnosisMeans(route: HTTPRoute, live: seq<HTTPRoute>)
    ensures var item := Diagnosis(route, live);
            && item.host == route.host && item.matcherSummary == MatcherSummary(route)
            && multiset(item.expectedUpstreams) == multiset(route.upstreams) && SortedBy(item.expectedUpstreams, StrLess)
            && (item.verdict == Missing <==> forall r :: r in live ==> RouteKey(r) != RouteKey(route))
            && (item.verdict == Missing ==> item.liveUpstreams == [])
            && (forall i :: 0 <= i < |live| && RouteKey(live[i]) == RouteKey(route)
                            && (forall j :: i < j < |live| ==> RouteKey(live[j]) != RouteKey(route)) ==>
                  && multiset(item.liveUpstreams) == multiset(live[i].upstreams) && SortedBy(item.liveUpstreams, StrLess)
                  && item.verdict == if multiset(live[i].upstreams) == multiset(route.upstreams) then Healthy else Differs)
  {
    hide RouteKey, LiveUnder, MatcherSummary, StrLess;
    LiveUnderMeans(live, RouteKey(route));
    SortStringsIsSortOf(route.upstreams);
    forall i | 0 <= i < |live| && RouteKey(live[i]) == RouteKey(route)
               && (forall j :: i < j < |live| ==> RouteKey(live[j]) != RouteKey(route))
      ensures var item := Diagnosis(route, live);
              && multiset(item.liveUpstreams) == multiset(live[i].upstreams) && SortedBy(item.liveUpstreams, StrLess)
              && item.verdict == if multiset(live[i].upstreams) == multiset(route.upstreams) then Healthy else Differs
    {
      SortStringsIsSortOf(live[i].upstreams);
      SameSorted(live[i].upstreams, route.upstreams);
    }
  }

  lemma SameSorted(a: seq<string>, b: seq<string>)
    ensures SortStrings(a) == SortStrings(b) <==> multiset(a) == multiset(b)
  {
    SortStringsIsSortOf(a);
    SortStringsIsSortOf(b);
    StrLessIsTotalOrder();
    hide SortStrings, StrLess;
    if multiset(a) == multiset(b) {
      SortOfUnique(SortStrings(a), SortStrings(b), StrLess);
    }
  }

  function HealthyIn(items: seq<RouteDiagnostic>): nat {
    if items == [] then 0
    else HealthyIn(items[..|items| - 1]) + if items[|items| - 1].verdict.Healthy? then 1 else 0
  }

  /** The index holds, under each key, the last live route with its upstreams sorted. */
  ghost predicate Indexes(liveByKey: map<string, HTTPRoute>, live: seq<HTTPRoute>) {
    forall key :: key != "||" && key != "" ==>
      && (key in liveByKey <==> LiveUnder(live, key).Some?)
      && (key in liveByKey ==>
            var found := LiveUnder(live, key).value;
            liveByKey[key] == found.(upstreams := SortStrings(found.upstreams)))
  }

  method IndexByKey(live: seq<HTTPRoute>) returns (liveByKey: map<string, HTTPRoute>)
    ensures Indexes(liveByKey, live)
  {
    hide SortStrings, RouteKey;
    liveByKey := map[];
    for n := 0 to |live|
      invariant Indexes(liveByKey, live[..n])
    {
      assert live[..n + 1][..n] == live[..n];
      var key := RouteKey(live[n]);
      if key == "||" || key == "" {
        continue;
      }
      liveByKey := liveByKey[key := live[n].(upstreams := SortStrings(live[n].upstreams))];
    }
    assert live[..|live|] == live;
  }

  lemma RouteKeyIsNeverEmpty(route: HTTPRoute)
    ensures RouteKey(route) != "||" && RouteKey(route) != ""
  {
    var t := NormalizedMatchType(route.matchType);
    var a, c := TrimSpace(ToLower(route.host)), TrimSpace(route.matchValue);
    JoinThree(a, t, c, "|");
    assert |t| >= 4 && |RouteKey(route)| == |a| + 1 + |t| + 1 + |c|;
  }

  method CompareRoute(route: HTTPRoute, liveByKey: map<string, HTTPRoute>, ghost live: seq<HTTPRoute>)
      returns (item: RouteDiagnostic)
    requires Indexes(liveByKey, live)
    ensures item == Diagnosis(route, live)
  {
    var expectedUpstreams := SortStrings(route.upstreams);
    item := RouteDiagnostic(route.host, MatcherSummary(route), expectedUpstreams, [], Missing);
    RouteKeyIsNeverEmpty(route);
    if RouteKey(route) !in liveByKey {
      return;
    }
    item := item.(liveUpstreams := liveByKey[RouteKey(route)].upstreams);
    if expectedUpstreams != item.liveUpstreams {
      item := item.(verdict := Differs);
      return;
    }
    item := item.(verdict := Healthy);
  }

  method CompareRoutes(expectedRoutes: seq<HTTPRoute>, live: seq<HTTPRoute>)
      returns (items: seq<RouteDiagnostic>, healthy: nat, drift: nat)
    ensures items == Diagnoses(expectedRoutes, live)
    ensures healthy == HealthyIn(items) && healthy + drift == |expectedRoutes|
  {
    hide Diagnosis, Indexes;
    var liveByKey := IndexByKey(live);
    items, healthy, drift := [], 0, 0;
    ghost var all := Diagnoses(expectedRoutes, live);
    for n := 0 to |expectedRoutes|
      invariant items == all[..n]
      invariant healthy == HealthyIn(items) && healthy + drift == n
    {
      var item := CompareRoute(expectedRoutes[n], liveByKey, live);
      assert item == all[n];
      if item.verdict == Healthy {
        healthy := healthy + 1;
      } else {
        drift := drift + 1;
      }
      items := items + [item];
      assert items[..|items| - 1] == all[..n];
    }
    assert items == all;
  }

  /** configured: the admin URL and client are set. getOk: the live config could be fetched. */
  method CaddyDiagnostics(rootDomain: string, projects: seq<Project>, port: string,
                          configured: bool, getOk: bool, current: Option<Json>) returns (d: Diagnostics)
    ensures d.available <==> configured && getOk
    ensures d.managedRouteCount == if configured then |ExpectedRoutes(rootDomain, projects, port)| else 0
    ensures d.available && Extracted(current).Ok? ==>
              var live := Extracted(current).value;
              && d.liveRouteCount == |live|
              && d.routes == Diagnoses(ExpectedRoutes(rootDomain, projects, port), live)
              && d.healthyRouteCount == HealthyIn(d.routes)
              && d.healthyRouteCount + d.driftCount == d.managedRouteCount
              && (d.status.Fine? <==> d.managedRouteCount > 0 && d.driftCount == 0)
              && (d.status.Warning? <==> d.managedRouteCount == 0 || d.driftCount > 0)
    ensures !(d.available && Extracted(current).Ok?) ==>
              d.status.Error? && d.routes == [] && d.healthyRouteCount == 0 && d.driftCount == 0
    ensures d.healthyRouteCount + d.driftCount == d.managedRouteCount
       <==> !configured || |ExpectedRoutes(rootDomain, projects, port)| == 0 || (getOk && Extracted(current).Ok?)
  {
    d := Diagnostics(false, Error, 0, 0, 0, 0, []);
    if !configured {
      return;
    }
    var expectedRoutes := ExpectedManagedRoutes(rootDomain, projects, port);
    d := d.(managedRouteCount := |expectedRoutes|);
    if !getOk {
      return;
    }
    d := d.(available := true);
    var live := ExtractHTTPRoutes(current);
    if live.Err? {
      return;
    }
    var items, healthy, drift := CompareRoutes(expectedRoutes, live.value);
    d := d.(liveRouteCount := |live.value|, routes := items, healthyRouteCount := healthy, driftCount := drift);
    d := d.(status := if d.managedRouteCount == 0 || d.driftCount > 0 then Warning else Fine);
  }
}
