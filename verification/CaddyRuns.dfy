/** Any number of merges, one after another, into one shared Caddy config. */
module CaddyRuns {
  import opened Text
  import opened Sequences
  import opened CaddyRoutes
  import opened CaddyJson
  import opened CaddyMerge

  datatype MergeCall = MergeCall(routes: seq<HTTPRoute>, keys: set<string>)

  /** The config after one call; a call that fails changes nothing. */
  function AfterCall(current: Option<Json>, call: MergeCall): Option<Json> {
    var outcome := MergeOf(current, call.routes, call.keys);
    if outcome.Merged? then Some(Object(outcome.root)) else current
  }

  function AfterCalls(current: Option<Json>, calls: seq<MergeCall>): Option<Json>
    decreases |calls|
  {
    if calls == [] then current else AfterCalls(AfterCall(current, calls[0]), calls[1..])
  }

  function LiveRoutes(current: Option<Json>): seq<Json> {
    var root := RootOf(current);
    if root.Merged? then LiveIn(root.root) else []
  }

  function KeysOfCalls(calls: seq<MergeCall>): set<string> {
    if calls == [] then {} else calls[0].keys + KeysOfCalls(calls[1..])
  }

  /** What is left of each call's rules once the later calls have removed theirs. */
  function Survivors(calls: seq<MergeCall>): seq<Json> {
    if calls == [] then []
    else Keep(DesiredRules(calls[0].routes), KeysOfCalls(calls[1..])) + Survivors(calls[1..])
  }

  lemma LiveAfterCall(current: Option<Json>, call: MergeCall)
    requires RootOf(current).Merged?
    ensures RootOf(AfterCall(current, call)).Merged?
    ensures LiveRoutes(AfterCall(current, call)) == Keep(LiveRoutes(current), call.keys) + DesiredRules(call.routes)
  {
    var root, desired := RootOf(current).root, DesiredRules(call.routes);
    LiveAfterMerge(root, desired, call.keys);
    assert AfterCall(current, call) == Some(Object(MergeInto(root, desired, call.keys)));
  }

  lemma LaterKeys(live: seq<Json>, desired: seq<Json>, keys: set<string>, later: set<string>, tail: seq<Json>)
    ensures Keep(Keep(live, keys) + desired, later) + tail == Keep(live, keys + later) + (Keep(desired, later) + tail)
  {
    KeepAppend(Keep(live, keys), desired, later);
    KeepTwice(live, keys, later);
  }

  /** The live routes after any run: the original ones that no call manages, then per call, in order,
      those of its rules that no later call manages. */
  lemma {:induction false} LiveAfterRun(current: Option<Json>, calls: seq<MergeCall>)
    requires RootOf(current).Merged?
    ensures LiveRoutes(AfterCalls(current, calls)) == Keep(LiveRoutes(current), KeysOfCalls(calls)) + Survivors(calls)
    decreases |calls|
  {
    var live := LiveRoutes(current);
    if calls == [] {
      KeepAll(live, {});
    } else {
      var next, rest := AfterCall(current, calls[0]), calls[1..];
      LiveAfterCall(current, calls[0]);
      LiveAfterRun(next, rest);
      LaterKeys(live, DesiredRules(calls[0].routes), calls[0].keys, KeysOfCalls(rest), Survivors(rest));
    }
  }

  // ---- The routes under one key ----

  function WithKey(routes: seq<Json>, key: string): seq<Json> {
    if routes == [] then []
    else
      var front, last := routes[..|routes| - 1], routes[|routes| - 1];
      if HasKey(last, key) then WithKey(front, key) + [last] else WithKey(front, key)
  }

  function RoutesWithKey(routes: seq<HTTPRoute>, key: string): seq<HTTPRoute> {
    if routes == [] then []
    else
      var front, last := routes[..|routes| - 1], routes[|routes| - 1];
      if RouteKey(last) == key then RoutesWithKey(front, key) + [last] else RoutesWithKey(front, key)
  }

  lemma {:induction false} WithKeyAppend(a: seq<Json>, b: seq<Json>, key: string)
    ensures WithKey(a + b, key) == WithKey(a, key) + WithKey(b, key)
  {
    if b == [] {
      assert a + b == a;
    } else {
      assert (a + b)[..|a + b| - 1] == a + b[..|b| - 1];
      WithKeyAppend(a, b[..|b| - 1], key);
    }
  }

  lemma {:induction false} WithKeyNone(routes: seq<Json>, key: string)
    requires forall r :: r in routes ==> !HasKey(r, key)
    ensures WithKey(routes, key) == []
  {
    if routes != [] { WithKeyNone(routes[..|routes| - 1], key); }
  }

  /** Keeping drops no route under a key whose routes carry no managed key. */
  lemma {:induction false} WithKeyKept(routes: seq<Json>, keys: set<string>, key: string)
    requires forall r :: r in routes && HasKey(r, key) ==> !Managed(r, keys)
    ensures WithKey(Keep(routes, keys), key) == WithKey(routes, key)
  {
    if routes != [] {
      var front, last := routes[..|routes| - 1], routes[|routes| - 1];
      WithKeyKept(front, keys, key);
      if !Managed(last, keys) {
        WithKeyAppend(Keep(front, keys), [last], key);
        assert WithKey([last], key) == if HasKey(last, key) then [last] else [];
      }
    }
  }

  lemma KeepDropsKey(routes: seq<Json>, keys: set<string>, key: string)
    requires key in keys
    ensures WithKey(Keep(routes, keys), key) == []
  {
    KeepMembers(routes, keys);
    WithKeyNone(Keep(routes, keys), key);
  }

  lemma {:induction false} EncodedWithKey(routes: seq<HTTPRoute>, encode: HTTPRoute -> Json, key: string)
    requires forall r :: r in routes ==> (HasKey(encode(r), key) <==> RouteKey(r) == key)
    ensures WithKey(Map(routes, encode), key) == Map(RoutesWithKey(routes, key), encode)
  {
    if routes != [] {
      var front, last := routes[..|routes| - 1], routes[|routes| - 1];
      MapFront(routes, encode);
      EncodedWithKey(front, encode, key);
      MapAppend(RoutesWithKey(front, key), [last], encode);
      assert Map([last], encode) == [encode(last)];
    }
  }

  /** The rules a call puts under a key are those of its own routes with that key, in sorted order. */
  lemma DesiredWithKey(routes: seq<HTTPRoute>, key: string)
    requires AllWellFormed(routes)
    ensures WithKey(DesiredRules(routes), key) == EncodeRules(RulesOf(RoutesWithKey(SortRoutes(routes), key)))
  {
    var sorted, encode := SortRoutes(routes), (r: HTTPRoute) => EncodeRule(RuleOf(r));
    SortRoutesIsSortOf(routes);
    forall r | r in sorted ensures HasKey(encode(r), key) <==> RouteKey(r) == key {
      RuleHasItsKey(r, key);
    }
    EncodedWithKey(sorted, encode, key);
    assert Map(sorted, encode) == DesiredRules(routes);
    var chosen := RoutesWithKey(sorted, key);
    assert Map(chosen, encode) == EncodeRules(RulesOf(chosen));
  }

  // ---- Last writer wins ----

  /** Each call wants well-formed routes and passes all their keys. */
  predicate Proper(calls: seq<MergeCall>) {
    forall c :: c in calls ==> AllWellFormed(c.routes) && Covered(c.routes, c.keys)
  }

  predicate NotManaged(calls: seq<MergeCall>, key: string) {
    forall c :: c in calls ==> key !in c.keys
  }

  lemma {:induction false} KeysOfCallsMember(calls: seq<MergeCall>, key: string)
    ensures key in KeysOfCalls(calls) <==> !NotManaged(calls, key)
  {
    if calls != [] {
      KeysOfCallsMember(calls[1..], key);
      assert calls == [calls[0]] + calls[1..];
    }
  }

  lemma DesiredHasOnly(routes: seq<HTTPRoute>, keys: set<string>, rule: Json, key: string)
    requires AllWellFormed(routes) && Covered(routes, keys)
    requires rule in DesiredRules(routes) && HasKey(rule, key)
    ensures key in keys
    ensures forall other :: HasKey(rule, other) ==> other == key
  {
    DesiredRule(routes, rule);
    var r :| r in routes && rule == EncodeRule(RuleOf(r));
    RuleHasItsKey(r, key);
    forall other | HasKey(rule, other) ensures other == key {
      RuleHasItsKey(r, other);
    }
  }

  lemma {:induction false} SurvivorsLackKey(calls: seq<MergeCall>, key: string)
    requires Proper(calls) && NotManaged(calls, key)
    ensures WithKey(Survivors(calls), key) == []
  {
    if calls != [] {
      var rest, desired := calls[1..], DesiredRules(calls[0].routes);
      SurvivorsLackKey(rest, key);
      KeepMembers(desired, KeysOfCalls(rest));
      forall r | r in Keep(desired, KeysOfCalls(rest)) ensures !HasKey(r, key) {
        if HasKey(r, key) { DesiredHasOnly(calls[0].routes, calls[0].keys, r, key); }
      }
      WithKeyNone(Keep(desired, KeysOfCalls(rest)), key);
      WithKeyAppend(Keep(desired, KeysOfCalls(rest)), Survivors(rest), key);
    }
  }

  lemma {:induction false} DesiredStays(call: MergeCall, later: set<string>, key: string)
    requires AllWellFormed(call.routes) && Covered(call.routes, call.keys) && key !in later
    ensures WithKey(Keep(DesiredRules(call.routes), later), key) == WithKey(DesiredRules(call.routes), key)
  {
    var desired := DesiredRules(call.routes);
    forall r | r in desired && HasKey(r, key) ensures !Managed(r, later) {
      DesiredHasOnly(call.routes, call.keys, r, key);
    }
    WithKeyKept(desired, later, key);
  }

  /** After any run, the live routes under a key are those of the last call that managed it. */
  lemma {:induction false} LastWriterWins(current: Option<Json>, calls: seq<MergeCall>, i: nat, key: string)
    requires RootOf(current).Merged? && Proper(calls)
    requires i < |calls| && key in calls[i].keys && NotManaged(calls[i + 1..], key)
    ensures WithKey(LiveRoutes(AfterCalls(current, calls)), key) == WithKey(DesiredRules(calls[i].routes), key)
    decreases |calls|
  {
    var rest := calls[1..];
    LiveAfterCall(current, calls[0]);
    if i > 0 {
      assert rest[i..] == calls[i + 1..];
      LastWriterWins(AfterCall(current, calls[0]), rest, i - 1, key);
    } else {
      var live, later := LiveRoutes(current), KeysOfCalls(rest);
      LiveAfterRun(current, calls);
      KeysOfCallsMember(calls, key);
      KeysOfCallsMember(rest, key);
      KeepDropsKey(live, KeysOfCalls(calls), key);
      DesiredStays(calls[0], later, key);
      SurvivorsLackKey(rest, key);
      WithKeyAppend(Keep(DesiredRules(calls[0].routes), later), Survivors(rest), key);
      WithKeyAppend(Keep(live, KeysOfCalls(calls)), Survivors(calls), key);
    }
  }

  /** A live route of one matcher with one host has one key: see OneMatcherOneKey. */
  predicate AtMostOneKey(route: Json) {
    |Matchers(route)| <= 1
    && forall m :: m in Matchers(route) && m.Object? && "host" in m.members && m.members["host"].Array? ==>
         |m.members["host"].items| <= 1
  }

  lemma SoleHostKey(m: Json, a: string, b: string)
    requires MatcherHasKey(m, a) && MatcherHasKey(m, b) && |m.members["host"].items| <= 1
    ensures a == b
  {
    var hosts := m.members["host"].items;
    var i :| 0 <= i < |hosts| && hosts[i].String? && MatcherKey(m.members, hosts[i].s) == a;
    var j :| 0 <= j < |hosts| && hosts[j].String? && MatcherKey(m.members, hosts[j].s) == b;
    assert i == j;
  }

  lemma OneMatcherOneKey(route: Json, a: string, b: string)
    requires AtMostOneKey(route) && HasKey(route, a) && HasKey(route, b)
    ensures a == b
  {
    var matchers := Matchers(route);
    var i :| 0 <= i < |matchers| && MatcherHasKey(matchers[i], a);
    var j :| 0 <= j < |matchers| && MatcherHasKey(matchers[j], b);
    assert i == j;
    assert matchers[i] in matchers;
    SoleHostKey(matchers[i], a, b);
  }

  lemma WithKeyNext(front: seq<Json>, last: Json, keys: set<string>, key: string)
    ensures Keep(front + [last], keys) == Keep(front, keys) + (if Managed(last, keys) then [] else [last])
    ensures |WithKey(front + [last], key)| == |WithKey(front, key)| + (if HasKey(last, key) then 1 else 0)
    ensures |WithKey(Keep(front + [last], keys), key)| ==
            |WithKey(Keep(front, keys), key)| + (if HasKey(last, key) && !Managed(last, keys) then 1 else 0)
  {
    hide HasKey, Managed;
    assert (front + [last])[..|front|] == front;
    var kept := Keep(front, keys);
    assert (kept + [last])[..|kept|] == kept;
    assert kept + [] == kept;
  }

  lemma {:induction false} WithKeyShrinks(routes: seq<Json>, keys: set<string>, key: string)
    ensures |WithKey(Keep(routes, keys), key)| <= |WithKey(routes, key)|
    ensures |WithKey(Keep(routes, keys), key)| == |WithKey(routes, key)| ==>
              forall r :: r in routes && HasKey(r, key) ==> !Managed(r, keys)
  {
    if routes != [] {
      hide HasKey, Managed, WithKey, Keep;
      var front, last := routes[..|routes| - 1], routes[|routes| - 1];
      assert routes == front + [last];
      WithKeyShrinks(front, keys, key);
      WithKeyNext(front, last, keys, key);
    }
  }

  /** The live routes under a key that no call manages are the original ones, exactly when none of those
      also carries a key that some call manages. */
  lemma UnmanagedKeyUntouched(current: Option<Json>, calls: seq<MergeCall>, key: string)
    requires RootOf(current).Merged? && Proper(calls) && NotManaged(calls, key)
    ensures WithKey(LiveRoutes(AfterCalls(current, calls)), key) == WithKey(LiveRoutes(current), key)
       <==> forall r :: r in LiveRoutes(current) && HasKey(r, key) ==> !Managed(r, KeysOfCalls(calls))
  {
    hide HasKey, Managed, MergeOf;
    var live, keys := LiveRoutes(current), KeysOfCalls(calls);
    LiveAfterRun(current, calls);
    SurvivorsLackKey(calls, key);
    WithKeyAppend(Keep(live, keys), Survivors(calls), key);
    WithKeyShrinks(live, keys, key);
    if forall r :: r in live && HasKey(r, key) ==> !Managed(r, keys) {
      WithKeyKept(live, keys, key);
    }
  }

  /** So it is where live routes have one matcher with one host. */
  lemma {:induction false} OneMatcherRoutesUntouched(current: Option<Json>, calls: seq<MergeCall>, key: string)
    requires RootOf(current).Merged? && Proper(calls) && NotManaged(calls, key)
    requires forall r :: r in LiveRoutes(current) ==> AtMostOneKey(r)
    ensures WithKey(LiveRoutes(AfterCalls(current, calls)), key) == WithKey(LiveRoutes(current), key)
  {
    hide AtMostOneKey, HasKey, LiveRoutes, AfterCalls, WithKey;
    var keys := KeysOfCalls(calls);
    KeysOfCallsMember(calls, key);
    UnmanagedKeyUntouched(current, calls, key);
    forall r | r in LiveRoutes(current) && HasKey(r, key) ensures !Managed(r, keys) {
      if other :| other in keys && HasKey(r, other) { OneMatcherOneKey(r, key, other); }
    }
  }

  lemma {:induction false} SurvivorsAreManaged(calls: seq<MergeCall>, keys: set<string>)
    requires Proper(calls) && KeysOfCalls(calls) <= keys
    ensures Keep(Survivors(calls), keys) == []
  {
    if calls != [] {
      var rest, desired := calls[1..], DesiredRules(calls[0].routes);
      SurvivorsAreManaged(rest, keys);
      DesiredAreManaged(calls[0].routes, calls[0].keys);
      forall r | r in Keep(desired, KeysOfCalls(rest)) ensures Managed(r, keys) {
        KeepMembers(desired, KeysOfCalls(rest));
        var key :| key in calls[0].keys && HasKey(r, key);
        assert key in keys;
      }
      KeepNone(Keep(desired, KeysOfCalls(rest)), keys);
      KeepAppend(Keep(desired, KeysOfCalls(rest)), Survivors(rest), keys);
    }
  }

  /** The live routes that no call ever manages are the original ones, in the original order; this
      holds of routes with any number of matchers and hosts. */
  lemma {:induction false} NeverManagedKeepOrder(current: Option<Json>, calls: seq<MergeCall>)
    requires RootOf(current).Merged? && Proper(calls)
    ensures Keep(LiveRoutes(AfterCalls(current, calls)), KeysOfCalls(calls)) == Keep(LiveRoutes(current), KeysOfCalls(calls))
  {
    var live, keys := LiveRoutes(current), KeysOfCalls(calls);
    LiveAfterRun(current, calls);
    KeepAppend(Keep(live, keys), Survivors(calls), keys);
    KeepTwice(live, keys, keys);
    assert keys + keys == keys;
    SurvivorsAreManaged(calls, keys);
  }

  // ---- Which live route answers a request ----

  /** The first live route that takes a request. */
  predicate FirstTaker(items: seq<Json>, i: int, takes: Json -> bool) {
    0 <= i < |items| && takes(items[i]) && forall j | 0 <= j < i :: !takes(items[j])
  }

  /** takes says of each live route whether it takes one request, of written ones as their matchers say. */
  ghost predicate TakesAsWritten(takes: Json -> bool, host: string, path: string) {
    forall route: HTTPRoute :: takes(EncodeRule(RuleOf(route))) <==> RouteMatches(route, host, path)
  }

  /** Such is, for one, a server that reads every live route as the controller does. */
  lemma ReaderTakesAsWritten(host: string, path: string) returns (takes: Json -> bool)
    ensures TakesAsWritten(takes, host, path)
  {
    hide DecodeRule, RuleMatches, RouteMatches, EncodeRule, RuleOf;
    takes := j => DecodeRule(j).Some? && RuleMatches(DecodeRule(j).value, host, path);
    forall route: HTTPRoute ensures takes(EncodeRule(RuleOf(route))) <==> RouteMatches(route, host, path) {
      DecodeEncodedRule(RuleOf(route));
      RuleMatchesItsRoute(route, host, path);
    }
  }

  lemma DesiredItem(routes: seq<HTTPRoute>, k: nat)
    requires k < |DesiredRules(routes)|
    ensures k < |SortRoutes(routes)| && DesiredRules(routes)[k] == EncodeRule(RuleOf(SortRoutes(routes)[k]))
  {
    hide EncodeRule, RuleOf;
  }

  lemma FirstOfBoth(kept: seq<Json>, written: seq<Json>, i: int, takes: Json -> bool)
    requires FirstTaker(kept + written, i, takes)
    ensures if exists r :: r in kept && takes(r) then FirstTaker(kept, i, takes)
            else |kept| <= i && FirstTaker(written, i - |kept|, takes)
  {
    var live := kept + written;
    assert forall k :: 0 <= k < |kept| ==> live[k] == kept[k];
    if r :| r in kept && takes(r) {
      var k :| 0 <= k < |kept| && kept[k] == r;
      assert takes(live[k]);
    } else {
      assert forall k :: 0 <= k < |kept| ==> kept[k] in kept && !takes(live[k]);
      assert forall k :: 0 <= k < |written| ==> live[|kept| + k] == written[k];
    }
  }

  lemma FirstWritten(routes: seq<HTTPRoute>, n: int, takes: Json -> bool, host: string, path: string)
    requires AllWellFormed(routes) && TakesAsWritten(takes, host, path) && FirstTaker(DesiredRules(routes), n, takes)
    ensures n < |SortRoutes(routes)| && var r := SortRoutes(routes)[n];
            && r in routes && DesiredRules(routes)[n] == EncodeRule(RuleOf(r)) && RouteMatches(r, host, path)
            && forall other :: other in routes && RouteMatches(other, host, path) ==> Precedes(r, other)
  {
    hide EncodeRule, RuleOf, RouteMatches, Precedes, WellFormed, DesiredRules, RuleMatches;
    var sorted := SortRoutes(routes);
    SortRoutesIsSortOf(routes);
    DesiredItem(routes, n);
    forall k | 0 <= k <= n ensures RuleMatches(RulesOf(sorted)[k], host, path) == takes(DesiredRules(routes)[k]) {
      DesiredItem(routes, k);
      RuleMatchesItsRoute(sorted[k], host, path);
    }
    FirstMatchIsMostSpecific(routes, sorted, n, host, path);
  }

  /** After a call, the written rules stand behind the kept routes: a request is answered by the first
      kept route that takes it, and where none does, by a most specific of the call's routes for it. */
  lemma LiveFirstMatch(current: Option<Json>, call: MergeCall, i: int, takes: Json -> bool, host: string, path: string)
    requires RootOf(current).Merged? && AllWellFormed(call.routes) && TakesAsWritten(takes, host, path)
    requires FirstTaker(LiveRoutes(AfterCall(current, call)), i, takes)
    ensures var kept, live := Keep(LiveRoutes(current), call.keys), LiveRoutes(AfterCall(current, call));
            if exists r :: r in kept && takes(r) then FirstTaker(kept, i, takes)
            else exists r :: r in call.routes && live[i] == EncodeRule(RuleOf(r)) && RouteMatches(r, host, path)
                             && forall other :: other in call.routes && RouteMatches(other, host, path) ==> Precedes(r, other)
  {
    hide Keep, EncodeRule, RuleOf, RouteMatches, Precedes, WellFormed, DesiredRules, AfterCall, LiveRoutes, TakesAsWritten;
    LiveAfterCall(current, call);
    var kept, written := Keep(LiveRoutes(current), call.keys), DesiredRules(call.routes);
    FirstOfBoth(kept, written, i, takes);
    if !exists r :: r in kept && takes(r) {
      FirstWritten(call.routes, i - |kept|, takes, host, path);
    }
  }

  /** And it is answered at all exactly when a kept route takes it or one of the call's is meant for it. */
  lemma LiveAnswers(current: Option<Json>, call: MergeCall, takes: Json -> bool, host: string, path: string)
    requires RootOf(current).Merged? && TakesAsWritten(takes, host, path)
    ensures (exists r :: r in LiveRoutes(AfterCall(current, call)) && takes(r)) <==>
            (exists r :: r in Keep(LiveRoutes(current), call.keys) && takes(r)) || (exists r :: r in call.routes && RouteMatches(r, host, path))
  {
    hide Keep, EncodeRule, RuleOf, RouteMatches, DesiredRules, AfterCall, LiveRoutes;
    LiveAfterCall(current, call);
    SortRoutesIsSortOf(call.routes);
    var desired, sorted := DesiredRules(call.routes), SortRoutes(call.routes);
    MultisetMembers(sorted, call.routes);
    if r :| r in desired && takes(r) {
      var k :| 0 <= k < |desired| && desired[k] == r;
      DesiredItem(call.routes, k);
      assert sorted[k] in sorted;
    }
    if r :| r in call.routes && RouteMatches(r, host, path) {
      assert r in sorted;
      var k :| 0 <= k < |sorted| && sorted[k] == r;
      DesiredCount(call.routes);
      DesiredItem(call.routes, k);
      assert desired[k] in desired && takes(desired[k]);
    }
  }

  lemma DesiredCount(routes: seq<HTTPRoute>)
    ensures |DesiredRules(routes)| == |SortRoutes(routes)|
  {
  }
}
