/** What the drift report says after a merge, and exactly when it is clean. */
module DriftAfterMerge {
  import opened Text
  import opened Sequences
  import opened Sorting
  import opened CaddyRoutes
  import opened CaddyJson
  import opened CaddyMerge
  import opened CaddyRuns
  import opened CaddyExtract
  import opened ProjectRoutes
  import opened RouteText
  import opened RouteDrift
  import opened ReadMerged

  // ---- The route that the report finds under a key ----

  function UnderKey(key: string): HTTPRoute -> bool {
    route => RouteKey(route) == key
  }

  /** The last route of some routes, as sorted, under a key. */
  lemma {:induction false} LiveUnderIsLast(live: seq<HTTPRoute>, key: string)
    ensures var found := Filter(live, UnderKey(key));
            LiveUnder(live, key) == if found == [] then None else Some(found[|found| - 1])
  {
    hide RouteKey;
    if live != [] {
      var front, last := live[..|live| - 1], live[|live| - 1];
      LiveUnderIsLast(front, key);
      FilterAppend(front, [last], UnderKey(key));
      assert live == front + [last];
      assert Filter([last], UnderKey(key)) == if RouteKey(last) == key then [last] else [];
    }
  }

  lemma SortedUnder(routes: seq<HTTPRoute>, key: string)
    ensures var found := Filter(routes, UnderKey(key));
            LiveUnder(SortRoutes(routes), key) == if found == [] then None else Some(LastMax(found, RouteLess))
  {
    hide RouteKey, RouteLess;
    RouteLessIsStrictWeakOrder();
    LiveUnderIsLast(SortRoutes(routes), key);
    FilterSort(routes, UnderKey(key), RouteLess);
    if Filter(routes, UnderKey(key)) != [] {
      LastOfSort(Filter(routes, UnderKey(key)), RouteLess);
    }
  }

  /** Read back as itself, but for what is done to the path on the way. */
  predicate Alike(read: HTTPRoute, route: HTTPRoute) {
    read == Normal(route).(stripPrefix := read.stripPrefix, rewritePrefix := read.rewritePrefix)
  }

  lemma AlikeMeans(read: HTTPRoute, route: HTTPRoute)
    requires Alike(read, route)
    ensures RouteKey(read) == RouteKey(route) && RankOf(read) == RankOf(Normal(route))
    ensures SortStrings(read.upstreams) == SortStrings(route.upstreams)
  {
    SortStringsIdempotent(route.upstreams);
    hide SortStrings;
  }

  /** Some routes, as read, stand for all of the wanted ones and for nothing else. */
  predicate StandFor(ours: seq<HTTPRoute>, wanted: seq<HTTPRoute>) {
    && (forall r :: r in ours ==> exists w :: w in wanted && Alike(r, w))
    && (forall w :: w in wanted ==> exists r :: r in ours && Alike(r, w))
  }

  /** A route of others wins a key: the last of them, as sorted, comes after every wanted route of the
      key. (A wanted route that ties with it comes later, as it is written later.) */
  predicate ForeignWins(foreign: seq<HTTPRoute>, wanted: seq<HTTPRoute>, key: string) {
    var last := LiveUnder(SortRoutes(foreign), key);
    last.Some? && forall w :: w in wanted && RouteKey(w) == key ==> RouteLess(Normal(w), last.value)
  }

  /** A route of ours under a key stands for a wanted route under it. */
  lemma WantedOf(ours: seq<HTTPRoute>, wanted: seq<HTTPRoute>, key: string, r: HTTPRoute) returns (w: HTTPRoute)
    requires StandFor(ours, wanted) && r in Filter(ours, UnderKey(key))
    ensures w in wanted && RouteKey(w) == key && Alike(r, w)
  {
    hide RouteKey, Alike;
    w :| w in wanted && Alike(r, w);
    AlikeMeans(r, w);
  }

  lemma OursOf(ours: seq<HTTPRoute>, wanted: seq<HTTPRoute>, w: HTTPRoute) returns (r: HTTPRoute)
    requires StandFor(ours, wanted) && w in wanted
    ensures r in Filter(ours, UnderKey(RouteKey(w))) && Alike(r, w)
  {
    hide RouteKey, Alike;
    r :| r in ours && Alike(r, w);
    AlikeMeans(r, w);
  }

  /** The winner under the key of a wanted route: the last foreign route, or a wanted one. */
  lemma Winner(foreign: seq<HTTPRoute>, ours: seq<HTTPRoute>, wanted: seq<HTTPRoute>, e: HTTPRoute) returns (read: HTTPRoute, o: HTTPRoute)
    requires e in wanted && StandFor(ours, wanted)
    ensures o in wanted && RouteKey(o) == RouteKey(e) && Alike(read, o)
    ensures LiveUnder(SortRoutes(foreign + ours), RouteKey(e)) ==
            if ForeignWins(foreign, wanted, RouteKey(e)) then LiveUnder(SortRoutes(foreign), RouteKey(e)) else Some(read)
  {
    hide RouteKey, Alike, RouteLess, LiveUnder, StandFor, LastMax, Filter, SortRoutes;
    var key := RouteKey(e);
    var theirs, mine := Filter(foreign, UnderKey(key)), Filter(ours, UnderKey(key));
    RouteLessIsStrictWeakOrder();
    SortedUnder(foreign, key);
    SortedUnder(foreign + ours, key);
    FilterAppend(foreign, ours, UnderKey(key));
    var _ := OursOf(ours, wanted, e);
    LastMaxIsMax(mine, RouteLess);
    read := LastMax(mine, RouteLess);
    o := WantedOf(ours, wanted, key, read);
    if theirs != [] {
      LastMaxAppend(theirs, mine, RouteLess);
      WinsIff(LastMax(theirs, RouteLess), ours, wanted, key, o);
    } else {
      assert theirs + mine == mine;
    }
  }

  lemma SameRankLess(a: HTTPRoute, b: HTTPRoute, f: HTTPRoute)
    requires RankOf(a) == RankOf(b)
    ensures RouteLess(a, f) == RouteLess(b, f) && RouteLess(f, a) == RouteLess(f, b)
  {
    hide RankOf;
  }

  lemma WinsIff(f: HTTPRoute, ours: seq<HTTPRoute>, wanted: seq<HTTPRoute>, key: string, o: HTTPRoute)
    requires StandFor(ours, wanted) && Filter(ours, UnderKey(key)) != []
    requires o in wanted && RouteKey(o) == key && Alike(LastMax(Filter(ours, UnderKey(key)), RouteLess), o)
    ensures RouteLess(LastMax(Filter(ours, UnderKey(key)), RouteLess), f) <==>
            forall w :: w in wanted && RouteKey(w) == key ==> RouteLess(Normal(w), f)
  {
    hide RouteKey, Normal, RouteLess, RankOf, Alike, StandFor, LastMax, Filter;
    RouteLessIsStrictWeakOrder();
    var mine := Filter(ours, UnderKey(key));
    LastMaxIsMax(mine, RouteLess);
    var last := LastMax(mine, RouteLess);
    AlikeMeans(last, o);
    SameRankLess(last, Normal(o), f);
    forall w | w in wanted && RouteKey(w) == key ensures RouteLess(last, f) ==> RouteLess(Normal(w), f) {
      var r := OursOf(ours, wanted, w);
      AlikeMeans(r, w);
      SameRankLess(r, Normal(w), f);
      assert RouteLess(last, f) ==> RouteLess(last, r) || RouteLess(r, f);
    }
  }

  // ---- Exactly when the report is clean ----

  /** Routes under the same key go to the same places. */
  predicate Consistent(routes: seq<HTTPRoute>) {
    forall a, b :: a in routes && b in routes && RouteKey(a) == RouteKey(b) ==> SortStrings(a.upstreams) == SortStrings(b.upstreams)
  }

  /** Where a foreign route wins a wanted key, it goes to the same places. */
  predicate Harmless(foreign: seq<HTTPRoute>, wanted: seq<HTTPRoute>) {
    forall e :: e in wanted && ForeignWins(foreign, wanted, RouteKey(e)) ==>
      SortStrings(LiveUnder(SortRoutes(foreign), RouteKey(e)).value.upstreams) == SortStrings(e.upstreams)
  }

  lemma FoundVerdict(foreign: seq<HTTPRoute>, ours: seq<HTTPRoute>, wanted: seq<HTTPRoute>, e: HTTPRoute) returns (o: HTTPRoute)
    requires e in wanted && StandFor(ours, wanted)
    ensures o in wanted && RouteKey(o) == RouteKey(e)
    ensures Diagnosis(e, SortRoutes(foreign + ours)).verdict == Healthy <==>
              SortStrings(e.upstreams) ==
              SortStrings(if ForeignWins(foreign, wanted, RouteKey(e)) then LiveUnder(SortRoutes(foreign), RouteKey(e)).value.upstreams
                          else o.upstreams)
  {
    hide SortRoutes, RouteKey, RouteLess, LiveUnder, SortStrings, StandFor, Alike;
    var read;
    read, o := Winner(foreign, ours, wanted, e);
    AlikeMeans(read, o);
  }

  lemma CleanIff(foreign: seq<HTTPRoute>, ours: seq<HTTPRoute>, wanted: seq<HTTPRoute>)
    requires StandFor(ours, wanted)
    ensures (forall e :: e in wanted ==> Diagnosis(e, SortRoutes(foreign + ours)).verdict == Healthy)
       <==> Consistent(wanted) && Harmless(foreign, wanted)
  {
    hide Diagnosis, SortRoutes, RouteKey, RouteLess, SortStrings, LiveUnder, StandFor;
    var live := SortRoutes(foreign + ours);
    forall e | e in wanted ensures Consistent(wanted) && Harmless(foreign, wanted) ==> Diagnosis(e, live).verdict == Healthy {
      var o := FoundVerdict(foreign, ours, wanted, e);
    }
    if forall e :: e in wanted ==> Diagnosis(e, live).verdict == Healthy {
      forall e | e in wanted && ForeignWins(foreign, wanted, RouteKey(e))
        ensures SortStrings(LiveUnder(SortRoutes(foreign), RouteKey(e)).value.upstreams) == SortStrings(e.upstreams)
      {
        var o := FoundVerdict(foreign, ours, wanted, e);
      }
      forall a, b | a in wanted && b in wanted && RouteKey(a) == RouteKey(b) ensures SortStrings(a.upstreams) == SortStrings(b.upstreams) {
        SameWinner(live, a, b);
      }
    }
  }

  /** Two healthy routes under one key meet the same winner. */
  lemma SameWinner(live: seq<HTTPRoute>, a: HTTPRoute, b: HTTPRoute)
    requires RouteKey(a) == RouteKey(b) && Diagnosis(a, live).verdict == Healthy && Diagnosis(b, live).verdict == Healthy
    ensures SortStrings(a.upstreams) == SortStrings(b.upstreams)
  {
    hide RouteKey, LiveUnder, SortStrings;
  }

  lemma SparedAlike(current: Option<Json>, wanted: seq<HTTPRoute>, i: nat)
    requires AllWellFormed(wanted) && Spared(current, wanted) && i < |SortRoutes(wanted)|
    ensures |Ours(current, wanted)| == |SortRoutes(wanted)| && Alike(Ours(current, wanted)[i], SortRoutes(wanted)[i])
  {
    hide Ours, WellFormed, LeftForWanted, Covers, SortRoutes, SortStrings;
    OursReadBack(current, wanted);
  }

  lemma PairsStandFor(ours: seq<HTTPRoute>, sorted: seq<HTTPRoute>, wanted: seq<HTTPRoute>)
    requires |ours| == |sorted| && forall i :: 0 <= i < |ours| ==> Alike(ours[i], sorted[i])
    requires forall x :: x in sorted <==> x in wanted
    ensures StandFor(ours, wanted)
  {
    hide Alike;
    forall r | r in ours ensures exists w :: w in wanted && Alike(r, w) {
      var i :| 0 <= i < |ours| && ours[i] == r;
      assert sorted[i] in sorted;
    }
    forall w | w in wanted ensures exists r :: r in ours && Alike(r, w) {
      var i :| 0 <= i < |sorted| && sorted[i] == w;
      assert ours[i] in ours;
    }
  }

  /** Where no path that another spelling left is in the way, ours stand for the wanted routes. */
  lemma SparedStandFor(current: Option<Json>, wanted: seq<HTTPRoute>)
    requires AllWellFormed(wanted) && Spared(current, wanted)
    ensures StandFor(Ours(current, wanted), wanted)
  {
    SortRoutesIsSortOf(wanted);
    MultisetMembers(SortRoutes(wanted), wanted);
    OursReadBack(current, wanted);
    hide Ours, WellFormed, Spared, Alike, SortRoutes, StandFor, SameTarget, Covers, LeftForWanted;
    forall i | 0 <= i < |Ours(current, wanted)| ensures Alike(Ours(current, wanted)[i], SortRoutes(wanted)[i]) {
      SparedAlike(current, wanted, i);
    }
    PairsStandFor(Ours(current, wanted), SortRoutes(wanted), wanted);
  }

  /** After merging a set of routes, the config can be read exactly when what is kept of it can; and then,
      where no wanted route is written over a path that another spelling of "routes" left, the report has
      all routes healthy exactly when those under one key go to the same places and no route of others
      wins a wanted key and goes elsewhere. */
  lemma MergeThenDiagnose(current: Option<Json>, wanted: seq<HTTPRoute>)
    requires RootOf(current).Merged? && AllWellFormed(wanted)
    ensures var extracted := Extracted(MergedWith(current, wanted));
            && (extracted.Ok? <==> Readable(current, wanted))
            && (Extracted(current).Ok? ==> extracted.Ok?)
            && (extracted.Ok? && Spared(current, wanted) ==>
                  (Consistent(wanted) && Harmless(Foreign(current, wanted), wanted)
                   <==> forall e :: e in wanted ==> Diagnosis(e, extracted.value).verdict == Healthy))
  {
    hide Diagnosis, Extracted, Foreign, Ours, Readable, Spared, WellFormed, Consistent, Harmless, SortRoutes, Normals, StandFor;
    ReadAfterMerge(current, wanted);
    ReadableIff(current, wanted);
    if Extracted(current).Ok? {
      StaysReadable(current, wanted);
    }
    if Spared(current, wanted) {
      SparedStandFor(current, wanted);
      CleanIff(Foreign(current, wanted), Ours(current, wanted), wanted);
    }
  }

  // ---- Paths that another spelling left ----

  predicate DistinctKeys(routes: seq<HTTPRoute>) {
    forall i, j :: 0 <= i < j < |routes| ==> RouteKey(routes[i]) != RouteKey(routes[j])
  }

  lemma {:induction false} OnceOnly(routes: seq<HTTPRoute>, r: HTTPRoute)
    requires DistinctKeys(routes)
    ensures multiset(routes)[r] <= 1
  {
    hide RouteKey;
    if routes != [] {
      var front, last := routes[..|routes| - 1], routes[|routes| - 1];
      OnceOnly(front, r);
      assert routes == front + [last];
      assert r == last ==> r !in front;
    }
  }

  lemma SortedDistinct(wanted: seq<HTTPRoute>, i: nat, j: nat)
    requires DistinctKeys(wanted) && i < |SortRoutes(wanted)| && j < |SortRoutes(wanted)|
    requires RouteKey(SortRoutes(wanted)[i]) == RouteKey(SortRoutes(wanted)[j])
    ensures i == j
  {
    hide RouteKey;
    SortRoutesIsSortOf(wanted);
    var sorted := SortRoutes(wanted);
    MultisetMembers(sorted, wanted);
    assert sorted[i] in sorted && sorted[j] in sorted;
    assert sorted[i] == sorted[j];
    OnceOnly(wanted, sorted[i]);
    if i < j {
      TwiceInMultiset(sorted, i, j);
    } else if j < i {
      TwiceInMultiset(sorted, j, i);
    }
  }

  lemma KeyParts(a: HTTPRoute) returns (h: string, v: string)
    requires a.matchType in ["host", "path_prefix", "path_exact"] && '|' !in a.host
    ensures RouteKey(a) == h + "|" + a.matchType + "|" + v && '|' !in h
  {
    TypesAreNormal();
    hide TrimSpace;
    h, v := TrimSpace(ToLower(a.host)), TrimSpace(a.matchValue);
    JoinThree(h, a.matchType, v, "|");
    NoBar(a.host);
  }

  lemma BarComesFirst(h: string, x: string)
    requires '|' !in h
    ensures (h + "|" + x)[|h|] == '|' && forall k :: 0 <= k < |h| ==> (h + "|" + x)[k] != '|'
  {
    assert forall k :: 0 <= k < |h| ==> (h + "|" + x)[k] == h[k] && h[k] in h;
  }

  lemma FirstBar(h: string, x: string, g: string, y: string)
    requires h + "|" + x == g + "|" + y && '|' !in h && '|' !in g
    ensures h == g && x == y
  {
    var s := h + "|" + x;
    BarComesFirst(h, x);
    BarComesFirst(g, y);
    assert |h| == |g|;
    assert s[..|h|] == h && s[..|g|] == g && s[|h| + 1..] == x && s[|g| + 1..] == y;
  }

  /** The kinds of matcher are not mixed up by keys. */
  lemma KeyShowsType(a: HTTPRoute, b: HTTPRoute)
    requires a.matchType in ["host", "path_prefix", "path_exact"] && b.matchType in ["host", "path_prefix", "path_exact"]
    requires RouteKey(a) == RouteKey(b) && '|' !in a.host && '|' !in b.host
    ensures a.matchType == b.matchType
  {
    hide RouteKey;
    var h, v := KeyParts(a);
    var g, w := KeyParts(b);
    assert RouteKey(a) == h + "|" + (a.matchType + "|" + v) && RouteKey(b) == g + "|" + (b.matchType + "|" + w);
    FirstBar(h, a.matchType + "|" + v, g, b.matchType + "|" + w);
    NoBarInTypes();
    assert a.matchType + "|" + v == b.matchType + "|" + w;
    FirstBar(a.matchType, v, b.matchType, w);
  }

  /** For hosts without a bar, routes have the same key exactly when their hosts are the same but for case
      and white space, they match in the same way, and their values are the same but for white space. */
  lemma KeyMeans(a: HTTPRoute, b: HTTPRoute)
    requires a.matchType in ["host", "path_prefix", "path_exact"] && b.matchType in ["host", "path_prefix", "path_exact"]
    requires '|' !in a.host && '|' !in b.host
    ensures RouteKey(a) == RouteKey(b) <==>
              && TrimSpace(ToLower(a.host)) == TrimSpace(ToLower(b.host))
              && a.matchType == b.matchType && TrimSpace(a.matchValue) == TrimSpace(b.matchValue)
  {
    TypesAreNormal();
    hide TrimSpace, ToLower;
    var h, v, g, w := TrimSpace(ToLower(a.host)), TrimSpace(a.matchValue), TrimSpace(ToLower(b.host)), TrimSpace(b.matchValue);
    JoinThree(h, a.matchType, v, "|");
    JoinThree(g, b.matchType, w, "|");
    NoBar(a.host);
    NoBar(b.host);
    if RouteKey(a) == RouteKey(b) {
      FirstBar(h, a.matchType + "|" + v, g, b.matchType + "|" + w);
      NoBarInTypes();
      FirstBar(a.matchType, v, b.matchType, w);
    }
  }

  lemma NoBarInTypes()
    ensures forall t :: t in ["host", "path_prefix", "path_exact"] ==> '|' !in t
  {
  }

  lemma NoBar(host: string)
    requires '|' !in host
    ensures '|' !in TrimSpace(ToLower(host))
  {
    LowerKeeps(host, '|');
    var i, j := TrimParts(ToLower(host), IsSpace);
  }

  lemma TypesAreNormal()
    ensures forall t :: t in ["host", "path_prefix", "path_exact"] ==> NormalizedMatchType(t) == t
  {
    assert "host"[0] == 'h' && "path_prefix"[0] == 'p' && "path_exact"[0] == 'p';
    assert "host"[3] == 't' && "path_prefix"[10] == 'x' && "path_exact"[9] == 't';
    TrimCleanIsIdentity("host", IsSpace);
    TrimCleanIsIdentity("path_prefix", IsSpace);
    TrimCleanIsIdentity("path_exact", IsSpace);
  }

  /** A covered route is not read under its own key, and no other is read under it. */
  lemma CoveredIsUnread(current: Option<Json>, wanted: seq<HTTPRoute>, i: nat)
    requires AllWellFormed(wanted) && DistinctKeys(wanted) && forall w :: w in wanted ==> '|' !in w.host
    requires var cells, sorted := LeftForWanted(current, wanted), SortRoutes(wanted);
             && i < |sorted| && i < |cells| && Covers(cells[i], sorted[i])
             && (sorted[i].matchType == "host"
                 || forall j :: 0 <= j < |sorted| && j < |cells| && Covers(cells[j], sorted[j]) ==> sorted[j].matchType != "host")
    ensures forall r :: r in Ours(current, wanted) ==> RouteKey(r) != RouteKey(SortRoutes(wanted)[i])
  {
    hide Ours, LeftForWanted, Covers, RouteKey;
    OursReadBack(current, wanted);
    SortRoutesIsSortOf(wanted);
    MultisetMembers(SortRoutes(wanted), wanted);
    var ours, sorted, cells := Ours(current, wanted), SortRoutes(wanted), LeftForWanted(current, wanted);
    assert sorted[i] in sorted;
    forall j | 0 <= j < |ours| ensures RouteKey(ours[j]) != RouteKey(sorted[i]) {
      assert sorted[j] in sorted;
      if j < |cells| && Covers(cells[j], sorted[j]) {
        if RouteKey(ours[j]) == RouteKey(sorted[i]) {
          KeyShowsType(ours[j], sorted[i]);
        }
      } else {
        AlikeMeans(ours[j], sorted[j]);
        if RouteKey(ours[j]) == RouteKey(sorted[i]) {
          SortedDistinct(wanted, i, j);
        }
      }
    }
  }

  lemma UnreadIsMissing(read: seq<HTTPRoute>, e: HTTPRoute)
    requires forall r :: r in read ==> RouteKey(r) != RouteKey(e)
    ensures Diagnosis(e, SortRoutes(read)).verdict == Missing
  {
    hide RouteKey;
    SortedUnder(read, RouteKey(e));
    assert forall r :: r !in Filter(read, UnderKey(RouteKey(e)));
    EmptyIfNone(Filter(read, UnderKey(RouteKey(e))));
  }

  lemma EmptyIfNone(routes: seq<HTTPRoute>)
    ensures routes != [] ==> exists r :: r in routes
  {
    if routes != [] {
      assert routes[0] in routes;
    }
  }

  /** Where the wanted keys are distinct and no foreign route is read under one, the report is clean
      exactly when no wanted route is written over such a path. */
  lemma CleanIffSpared(current: Option<Json>, wanted: seq<HTTPRoute>)
    requires RootOf(current).Merged? && AllWellFormed(wanted) && Readable(current, wanted)
    requires DistinctKeys(wanted) && forall w :: w in wanted ==> '|' !in w.host
    requires forall f, w :: f in Foreign(current, wanted) && w in wanted ==> RouteKey(f) != RouteKey(w)
    ensures var extracted := Extracted(MergedWith(current, wanted));
            extracted.Ok? && (Spared(current, wanted) <==> forall e :: e in wanted ==> Diagnosis(e, extracted.value).verdict == Healthy)
  {
    hide Diagnosis, Extracted, Foreign, Ours, Readable, WellFormed, RouteKey, RouteLess, Covers, LeftForWanted;
    ReadableIff(current, wanted);
    ReadAfterMerge(current, wanted);
    var foreign, sorted, cells := Foreign(current, wanted), SortRoutes(wanted), LeftForWanted(current, wanted);
    SortRoutesIsSortOf(wanted);
    MultisetMembers(sorted, wanted);
    if Spared(current, wanted) {
      MergeThenDiagnose(current, wanted);
      forall e | e in wanted ensures !ForeignWins(foreign, wanted, RouteKey(e)) {
        SortedUnder(foreign, RouteKey(e));
        EmptyIfNone(Filter(foreign, UnderKey(RouteKey(e))));
      }
      assert Consistent(wanted);
    } else {
      var k :| 0 <= k < |sorted| && k < |cells| && Covers(cells[k], sorted[k]);
      var i := k;
      if j :| 0 <= j < |sorted| && j < |cells| && Covers(cells[j], sorted[j]) && sorted[j].matchType == "host" {
        i := j;
      }
      CoveredIsUnread(current, wanted, i);
      assert sorted[i] in sorted;
      UnreadIsMissing(foreign + Ours(current, wanted), sorted[i]);
    }
  }

  // ---- When projects agree ----

  /** Two projects, or one, are served under one key. */
  predicate ShareKey(p: Project, q: Project) {
    exists a, b :: a in ProjectRoutesOf(p) && b in ProjectRoutesOf(q) && RouteKey(a) == RouteKey(b)
  }

  predicate ServesKey(p: Project, key: string) {
    exists a :: a in ProjectRoutesOf(p) && RouteKey(a) == key
  }

  lemma {:induction false} ExpandedGoTo(specs: seq<ProjectHTTPRoute>, hosts: seq<string>, upstream: string, r: HTTPRoute)
    requires r in Expanded(specs, hosts, upstream)
    ensures r.upstreams == [upstream]
  {
    var last := specs[|specs| - 1];
    if r in OnHosts(last, TargetHosts(last, hosts), upstream) {
      OnHostsMembers(last, TargetHosts(last, hosts), upstream);
    } else {
      ExpandedGoTo(specs[..|specs| - 1], hosts, upstream, r);
    }
  }

  lemma ProjectGoesTo(p: Project, r: HTTPRoute)
    requires r in ProjectRoutesOf(p)
    ensures SortStrings(r.upstreams) == [Upstream(p)]
  {
    var routes := Expanded(SpecsOf(p), RouteHosts(p), Upstream(p));
    SortByKeyMembers(routes);
    ExpandedGoTo(SpecsOf(p), RouteHosts(p), Upstream(p), r);
    SortedIsFixed([Upstream(p)], StrLess);
  }

  lemma {:induction false} AllProjectRoutesMembers(projects: seq<Project>, r: HTTPRoute)
    ensures r in AllProjectRoutes(projects) <==> exists p :: p in projects && r in ProjectRoutesOf(p)
  {
    hide ProjectRoutesOf;
    if projects != [] {
      var front, last := projects[..|projects| - 1], projects[|projects| - 1];
      AllProjectRoutesMembers(front, r);
      assert forall p :: p in projects <==> p in front || p == last by {
        assert projects == front + [last];
      }
    }
  }

  /** Projects are served under one key only if they go to one upstream, and under the key of the
      controller only if that is where they go. */
  predicate ProjectsAgree(rootDomain: string, projects: seq<Project>, port: string) {
    && (forall p, q :: p in projects && q in projects && ShareKey(p, q) ==> Upstream(p) == Upstream(q))
    && (rootDomain != "" ==>
          forall p :: p in projects && ServesKey(p, RouteKey(AdminRoute(rootDomain, port))) ==> Upstream(p) == CONTROLLER + ":" + port)
  }

  /** Where a wanted route goes: the controller, or some project. */
  lemma WantedGoesTo(rootDomain: string, projects: seq<Project>, port: string, r: HTTPRoute)
    ensures r in WantedRoutes(rootDomain, projects, port) <==>
              (rootDomain != "" && r == AdminRoute(rootDomain, port)) || exists p :: p in projects && r in ProjectRoutesOf(p)
    ensures SortStrings(AdminRoute(rootDomain, port).upstreams) == [CONTROLLER + ":" + port]
    ensures forall p :: r in ProjectRoutesOf(p) ==> SortStrings(r.upstreams) == [Upstream(p)]
  {
    AllProjectRoutesMembers(projects, r);
    SortedIsFixed([CONTROLLER + ":" + port], StrLess);
    hide ProjectRoutesOf, AdminHostname, Upstream;
    forall p | r in ProjectRoutesOf(p) ensures SortStrings(r.upstreams) == [Upstream(p)] {
      ProjectGoesTo(p, r);
    }
  }

  lemma AgreeingIsConsistent(rootDomain: string, projects: seq<Project>, port: string)
    requires ProjectsAgree(rootDomain, projects, port)
    ensures Consistent(WantedRoutes(rootDomain, projects, port))
  {
    hide ProjectRoutesOf, AdminRoute, RouteKey, Upstream, SortStrings, WantedRoutes;
    var wanted, admin := WantedRoutes(rootDomain, projects, port), AdminRoute(rootDomain, port);
    forall a, b | a in wanted && b in wanted && RouteKey(a) == RouteKey(b) ensures SortStrings(a.upstreams) == SortStrings(b.upstreams) {
      WantedGoesTo(rootDomain, projects, port, a);
      WantedGoesTo(rootDomain, projects, port, b);
      if p, q :| p in projects && q in projects && a in ProjectRoutesOf(p) && b in ProjectRoutesOf(q) {
        assert ShareKey(p, q);
      } else if p :| p in projects && a in ProjectRoutesOf(p) {
        assert ServesKey(p, RouteKey(admin));
      } else if q :| q in projects && b in ProjectRoutesOf(q) {
        assert ServesKey(q, RouteKey(admin));
      }
    }
  }

  /** The routes to serve agree about where one key goes exactly when the projects do. */
  lemma ConsistentIff(rootDomain: string, projects: seq<Project>, port: string)
    ensures Consistent(WantedRoutes(rootDomain, projects, port)) <==> ProjectsAgree(rootDomain, projects, port)
  {
    hide ProjectRoutesOf, AdminRoute, RouteKey, Upstream, SortStrings, WantedRoutes;
    var wanted, admin := WantedRoutes(rootDomain, projects, port), AdminRoute(rootDomain, port);
    if ProjectsAgree(rootDomain, projects, port) {
      AgreeingIsConsistent(rootDomain, projects, port);
    } else if p, q :| p in projects && q in projects && ShareKey(p, q) && Upstream(p) != Upstream(q) {
      var a, b :| a in ProjectRoutesOf(p) && b in ProjectRoutesOf(q) && RouteKey(a) == RouteKey(b);
      WantedGoesTo(rootDomain, projects, port, a);
      WantedGoesTo(rootDomain, projects, port, b);
      assert [Upstream(p)][0] != [Upstream(q)][0];
    } else {
      var p :| p in projects && ServesKey(p, RouteKey(admin)) && Upstream(p) != CONTROLLER + ":" + port;
      var a :| a in ProjectRoutesOf(p) && RouteKey(a) == RouteKey(admin);
      WantedGoesTo(rootDomain, projects, port, a);
      WantedGoesTo(rootDomain, projects, port, admin);
      assert [Upstream(p)][0] != [CONTROLLER + ":" + port][0];
    }
  }

  // ---- A whole reconcile ----

  lemma {:induction false} AllHealthy(items: seq<RouteDiagnostic>)
    ensures HealthyIn(items) <= |items|
    ensures HealthyIn(items) == |items| <==> forall n :: 0 <= n < |items| ==> items[n].verdict.Healthy?
  {
    if items != [] { AllHealthy(items[..|items| - 1]); }
  }

  /** The routes of projects that the form accepted are well-formed, and so is the admin route. */
  lemma {:induction false} WantedWellFormed(rootDomain: string, projects: seq<Project>, port: string)
    requires forall p :: p in projects ==> Accepted(p.httpRoutes)
    ensures AllWellFormed(WantedRoutes(rootDomain, projects, port))
  {
    AllProjectsWellFormed(projects);
    assert ':' in (CONTROLLER + ":" + port);
    ContainsIsNotBlank(CONTROLLER + ":" + port, ':');
  }

  lemma {:induction false} AllProjectsWellFormed(projects: seq<Project>)
    requires forall p :: p in projects ==> Accepted(p.httpRoutes)
    ensures AllWellFormed(AllProjectRoutes(projects))
  {
    if projects != [] {
      AllProjectsWellFormed(projects[..|projects| - 1]);
      ExpandedRoutesWellFormed(projects[|projects| - 1]);
    }
  }

  /** Diagnosing right after a reconcile: the config can be read exactly when what is kept of it can; and
      then, where no wanted route is written over a path that another spelling of "routes" left, there is
      no drift exactly when the projects agree about where one key goes and no route of others wins one of
      their keys and goes elsewhere. */
  lemma ReconcileThenDiagnose(current: Option<Json>, rootDomain: string, projects: seq<Project>, port: string)
    requires Trimmed(rootDomain) && forall p :: p in projects ==> Accepted(p.httpRoutes)
    requires RootOf(current).Merged?
    ensures var wanted, expected := WantedRoutes(rootDomain, projects, port), ExpectedRoutes(rootDomain, projects, port);
            var extracted := Extracted(MergedWith(current, wanted));
            && (extracted.Ok? <==> Readable(current, wanted))
            && (Extracted(current).Ok? ==> extracted.Ok?)
            && (extracted.Ok? && Spared(current, wanted) ==>
                  (HealthyIn(Diagnoses(expected, extracted.value)) == |expected|
                   <==> (ProjectsAgree(rootDomain, projects, port) && Harmless(Foreign(current, wanted), wanted))))
  {
    hide Extracted, Diagnosis, WellFormed, Consistent, Harmless, Foreign, Readable, Spared, WantedRoutes, ExpectedRoutes, ProjectsAgree;
    var wanted, expected := WantedRoutes(rootDomain, projects, port), ExpectedRoutes(rootDomain, projects, port);
    WantedWellFormed(rootDomain, projects, port);
    ExpectedAreWanted(rootDomain, projects, port);
    MultisetMembers(expected, wanted);
    ConsistentIff(rootDomain, projects, port);
    MergeThenDiagnose(current, wanted);
    var extracted := Extracted(MergedWith(current, wanted));
    if extracted.Ok? {
      HealthyMeansAll(expected, wanted, extracted.value);
    }
  }

  lemma HealthyMeansAll(expected: seq<HTTPRoute>, wanted: seq<HTTPRoute>, live: seq<HTTPRoute>)
    requires forall e :: e in expected <==> e in wanted
    ensures HealthyIn(Diagnoses(expected, live)) == |expected| <==> forall e :: e in wanted ==> Diagnosis(e, live).verdict == Healthy
  {
    hide Diagnosis;
    var items := Diagnoses(expected, live);
    AllHealthy(items);
    if forall n :: 0 <= n < |items| ==> items[n].verdict.Healthy? {
      forall e | e in wanted ensures Diagnosis(e, live).verdict == Healthy {
        assert e in expected;
        var n :| 0 <= n < |expected| && expected[n] == e;
        assert items[n] == Diagnosis(e, live);
      }
    } else {
      var n :| 0 <= n < |items| && !items[n].verdict.Healthy?;
      assert expected[n] in expected && items[n] == Diagnosis(expected[n], live);
    }
  }

  // ---- Plain routes do no harm ----

  /** A matcher on which both sides of the controller read the same keys: its members are spelled in
      lower case, its hosts are strings, and its exact path, when it has one, is not blank. */
  predicate PlainMatcher(m: JsonObject) {
    && Spellings(m, "host") <= {"host"} && Spellings(m, "path_exact") <= {"path_exact"} && Spellings(m, "path_prefix") <= {"path_prefix"}
    && (HasItems(m, "host") ==> forall h :: h in m["host"].items ==> h.String?)
    && (HasItems(m, "path_exact") ==> !Blank(FirstText(m, "path_exact")))
  }

  /** A live route with at most one matcher, a plain one. */
  predicate PlainRoute(route: Json) {
    && (route.Object? ==> Spellings(route.members, "match") <= {"match"})
    && |Matchers(route)| <= 1
    && forall m :: m in Matchers(route) && m.Object? ==> PlainMatcher(m.members)
  }

  lemma ReadsOneSpelling<T>(m: JsonObject, key: string, prev: T, into: (T, Json) -> T)
    requires Spellings(m, key) <= {key}
    ensures FieldInto(m, key, prev, into) == if key in m then into(prev, m[key]) else prev
  {
    if key in m {
      assert key in Spellings(m, key);
      assert Spellings(m, key) == {key};
    } else {
      assert Spellings(m, key) == {};
    }
  }

  lemma StringsRead(m: JsonObject, key: string)
    requires Spellings(m, key) <= {key} && FieldFits(m, key, StringsFit)
    ensures var values := FieldInto(m, key, Slots([], []), StringsInto).shown;
            && (HasItems(m, key) <==> values != [])
            && (HasItems(m, key) ==> values[0] == FirstText(m, key))
            && (forall v :: v in values ==> HasItems(m, key) && (String(v) in m[key].items || (v == "" && Null in m[key].items)))
  {
    ReadsOneSpelling(m, key, Slots([], []), StringsInto);
    if key in m && m[key].Array? {
      assert key in Spellings(m, key);
      var items, values := m[key].items, StringsInto(Slots([], []), m[key]).shown;
      assert items != [] ==> StringFits(items[0]) && values[0] == StringInto("", items[0]);
      forall v | v in values ensures String(v) in items || (v == "" && Null in items) {
        var i :| 0 <= i < |values| && values[i] == v;
        assert StringFits(items[i]) && v == StringInto("", items[i]);
        assert items[i] in items;
      }
    }
  }

  /** The match that a plain matcher is read as. */
  function ReadOf(matcher: Json): Match {
    SeenMatch(MatchInto(NO_MATCH, matcher))
  }

  lemma SameMatcherPath(m: JsonObject)
    requires PlainMatcher(m) && MatchFits(Object(m))
    ensures var decoded := ReadOf(Object(m));
            ReadMatchers([decoded]) == MatcherView(decoded.host, MatcherPath(m).0, MatcherPath(m).1)
  {
    hide Spellings, FieldInto, StringsInto, StringsFit;
    var decoded := ReadOf(Object(m));
    StringsRead(m, "path_exact");
    StringsRead(m, "path_prefix");
    assert [decoded][..0] == [];
    assert [] + decoded.host == decoded.host;
    assert ReadMatchers([decoded]) == ReadMatcher(MatcherView([], "host", ""), decoded);
  }

  lemma HostsAreWritten(m: JsonObject, host: string)
    requires PlainMatcher(m) && MatchFits(Object(m)) && host in ReadOf(Object(m)).host
    ensures MatcherHasKey(Object(m), MatcherKey(m, host))
  {
    hide Spellings, FieldInto, StringsInto, StringsFit, MatcherKey;
    StringsRead(m, "host");
    assert Null !in m["host"].items;
    var j :| 0 <= j < |m["host"].items| && m["host"].items[j] == String(host);
  }

  /** A plain route with hosts is read from its one matcher. */
  lemma OneMatcherRead(route: Json)
    requires PlainRoute(route) && RuleFits(route)
    requires var rule := SeenRule(RuleInto(NO_RULE, route)); ReadMatchers(rule.matches).hosts != []
    ensures |Matchers(route)| == 1 && MatchFits(Matchers(route)[0]) && Matchers(route)[0].Object?
    ensures SeenRule(RuleInto(NO_RULE, route)).matches == [ReadOf(Matchers(route)[0])]
  {
    hide Spellings, FieldInto, MatchInto, MatchFits, PlainMatcher, HandlersInto, HandlersFit;
    var matches := SeenRule(RuleInto(NO_RULE, route)).matches;
    assert route.Object?;
    var m := route.members;
    ReadsOneSpelling(m, "match", Slots([], []), MatchesInto);
    assert matches == Map(FieldInto(m, "match", Slots([], []), MatchesInto).shown, SeenMatch);
    assert "match" in m && m["match"].Array?;
    assert "match" in Spellings(m, "match") by { SpellsItself(m, "match"); }
    assert MatchesFit(m["match"]);
    assert matches == [ReadOf(Matchers(route)[0])];
    NullHasNoHosts(Matchers(route)[0]);
  }

  lemma SpellsItself(m: JsonObject, key: string)
    requires key in m
    ensures key in Spellings(m, key)
  {
  }

  lemma NullHasNoHosts(matcher: Json)
    requires ReadMatchers([ReadOf(matcher)]).hosts != []
    ensures matcher.Object?
  {
    hide FieldInto;
    assert [ReadOf(matcher)][..0] == [];
    assert ReadMatchers([ReadOf(matcher)]) == ReadMatcher(MatcherView([], "host", ""), ReadOf(matcher));
  }

  /** Every key that the reader sees on a plain route is one that the writer matches. */
  lemma ReaderKeysAreWriterKeys(route: Json, rule: RouteRule, read: HTTPRoute)
    requires PlainRoute(route) && DecodeRule(route) == Some(rule) && read in RuleRoutes(rule)
    ensures HasKey(route, RouteKey(read))
  {
    hide RuleFits, RuleInto, MatchFits, MatchInto, PlainMatcher, ReadMatchers, ReadHandlers, MatcherPath, ReadOf;
    var view := ReadMatchers(rule.matches);
    OneMatcherRead(route);
    var matcher := Matchers(route)[0];
    assert matcher in Matchers(route);
    SortStringsIsSortOf(view.hosts);
    assert read.host in view.hosts;
    SameMatcherPath(matcher.members);
    HostsAreWritten(matcher.members, read.host);
    assert RouteKey(read) == MatcherKey(matcher.members, read.host);
    assert MatcherHasKey(Matchers(route)[0], RouteKey(read));
  }

  lemma {:induction false} CollectedMembers(rules: seq<RouteRule>, read: HTTPRoute)
    requires read in Collected(rules)
    ensures exists i :: 0 <= i < |rules| && read in RuleRoutes(rules[i])
  {
    hide RuleRoutes;
    var n := |rules| - 1;
    if read !in RuleRoutes(rules[n]) {
      CollectedMembers(rules[..n], read);
      var i :| 0 <= i < n && read in RuleRoutes(rules[..n][i]);
      assert read in RuleRoutes(rules[i]);
    }
  }

  lemma NothingForeign(items: seq<Json>, keys: set<string>, read: HTTPRoute)
    requires RulesFit(Array(items)) && forall r :: r in items ==> PlainRoute(r) && !Managed(r, keys)
    requires read in ReadOver([], items)
    ensures RouteKey(read) !in keys
  {
    hide RouteKey, PlainRoute, RuleRoutes, RuleInto, RuleFits, SeenRule, HasKey, Collected;
    var rules := Map(ItemsInto([], items, NO_RULE, RuleInto), SeenRule);
    CollectedMembers(rules, read);
    var i :| 0 <= i < |rules| && read in RuleRoutes(rules[i]);
    assert items[i] in items;
    assert RuleFits(items[i]) && rules[i] == SeenRule(RuleInto(NO_RULE, items[i]));
    RuleDecodes(items[i]);
    assert PlainRoute(items[i]);
    ReaderKeysAreWriterKeys(items[i], rules[i], read);
  }

  lemma RuleDecodes(item: Json)
    requires RuleFits(item)
    ensures DecodeRule(item) == Some(SeenRule(RuleInto(NO_RULE, item)))
  {
    hide RuleFits, RuleInto;
  }

  /** Where every unmanaged live route is plain, and no other spelling of "routes" left anything, no route
      of others is read under a wanted key. */
  lemma PlainIsHarmless(current: Option<Json>, wanted: seq<HTTPRoute>)
    requires RulesFit(Array(Kept(current, wanted))) && Left(current) == []
    requires forall r :: r in LiveRoutes(current) ==> Managed(r, KeysOf(wanted)) || PlainRoute(r)
    ensures Harmless(Foreign(current, wanted), wanted)
  {
    hide RouteKey, PlainRoute, Managed, RulesFit, RouteLess, ReadOver, Left;
    var keys, foreign := KeysOf(wanted), Foreign(current, wanted);
    KeepMembers(LiveRoutes(current), keys);
    forall e | e in wanted ensures !ForeignWins(foreign, wanted, RouteKey(e)) {
      SortedUnder(foreign, RouteKey(e));
      if Filter(foreign, UnderKey(RouteKey(e))) != [] {
        var read := Filter(foreign, UnderKey(RouteKey(e)))[0];
        assert read in Filter(foreign, UnderKey(RouteKey(e)));
        NothingForeign(Keep(LiveRoutes(current), keys), keys, read);
      }
    }
  }

  /** So, where the config can be read, srv0 spells its routes in one way and every unmanaged live route
      is plain, there is no drift after a reconcile exactly when the projects agree about where one key
      goes. */
  lemma PlainReconcileThenDiagnose(current: Option<Json>, rootDomain: string, projects: seq<Project>, port: string)
    requires Trimmed(rootDomain) && forall p :: p in projects ==> Accepted(p.httpRoutes)
    requires RootOf(current).Merged? && Extracted(current).Ok?
    requires Spellings(ServerIn(RootOf(current).root), "routes") <= {"routes"}
    requires forall r :: r in LiveRoutes(current) ==>
               Managed(r, KeysOf(WantedRoutes(rootDomain, projects, port))) || PlainRoute(r)
    ensures var wanted, expected := WantedRoutes(rootDomain, projects, port), ExpectedRoutes(rootDomain, projects, port);
            var extracted := Extracted(MergedWith(current, wanted));
            extracted.Ok? && (HealthyIn(Diagnoses(expected, extracted.value)) == |expected| <==> ProjectsAgree(rootDomain, projects, port))
  {
    hide Extracted, Diagnoses, ProjectsAgree, Harmless, Foreign, WantedRoutes, ExpectedRoutes, Managed, PlainRoute, RulesFit, ServerIn, Left;
    var wanted := WantedRoutes(rootDomain, projects, port);
    StaysReadable(current, wanted);
    ReadableIff(current, wanted);
    OneSpellingLeavesNothing(current);
    PlainIsHarmless(current, wanted);
    ReconcileThenDiagnose(current, rootDomain, projects, port);
  }

  lemma OneSpellingLeavesNothing(current: Option<Json>)
    requires RootOf(current).Merged? && Spellings(ServerIn(RootOf(current).root), "routes") <= {"routes"}
    ensures Left(current) == []
  {
    hide Spellings;
    assert Spellings(ServerIn(RootOf(current).root), "routes") - {"routes"} == {};
  }
}
