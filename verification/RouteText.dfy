/** The HTTP routes of a project, as text in the project form: parser, printer, and the stored rows. */
module RouteText {
  import opened Text
  import opened Sequences
  import opened Sorting
  import opened TextLines

  datatype ProjectHTTPRoute = ProjectHTTPRoute(
    hostname: string,
    matchType: string,
    matchValue: string,
    stripPrefix: bool,
    rewritePrefix: string,
    priority: int)

  const HOST := "host"
  const PATH_PREFIX := "path_prefix"
  const PATH_EXACT := "path_exact"
  const ALL_DOMAINS := "@domains"

  // ---- Normal forms ----

  function NormalizeHostname(value: string): string {
    Trim(ToLower(TrimSpace(value)), IsDot)
  }

  function NormalizeMatchType(value: string): string {
    var t := TrimSpace(ToLower(value));
    if t == PATH_PREFIX || t == "prefix" then PATH_PREFIX
    else if t == PATH_EXACT || t == "exact" then PATH_EXACT
    else HOST
  }

  // ---- Parsing ----

  datatype Problem =
    | BadShape
    | BadHost
    | HostWithValue
    | PathWithoutSlash
    | StripWithoutPrefix
    | RewriteWithoutPath
    | RewriteWithoutSlash
    | UnknownTransform
    | DuplicateRoute

  datatype ParseError = ParseError(line: nat, problem: Problem)

  type Parsed = Result<seq<ProjectHTTPRoute>, ParseError>

  function SpecKey(route: ProjectHTTPRoute): string {
    Join([route.hostname, route.matchType, route.matchValue], "|")
  }

  function HostOf(field: string): Result<string, Problem> {
    if field == ALL_DOMAINS || field == "" then Ok("")
    else
      var host := NormalizeHostname(field);
      if host == "" || ' ' in host then Err(BadHost) else Ok(host)
  }

  function Transformed(route: ProjectHTTPRoute, transform: string): Result<ProjectHTTPRoute, Problem> {
    if transform == "" then Ok(route)
    else if EqualFold(transform, "strip") then
      if route.matchType != PATH_PREFIX then Err(StripWithoutPrefix) else Ok(route.(stripPrefix := true))
    else if HasPrefix(ToLower(transform), "rewrite=") then
      var target := TrimSpace(transform[8..]);
      if route.matchType == HOST then Err(RewriteWithoutPath)
      else if !HasPrefix(target, "/") then Err(RewriteWithoutSlash)
      else Ok(route.(rewritePrefix := target))
    else Err(UnknownTransform)
  }

  /** The route of one line with the given number of earlier routes. */
  function LineRoute(fields: seq<string>, priority: int): Result<ProjectHTTPRoute, Problem> {
    if |fields| < 2 || |fields| > 4 then Err(BadShape) else
    var matchType := NormalizeMatchType(fields[1]);
    var matchValue := if |fields| >= 3 then fields[2] else "";
    var transform := if |fields| == 4 then fields[3] else "";
    var host := HostOf(fields[0]);
    if host.Err? then Err(host.error)
    else if matchType == HOST && matchValue != "" then Err(HostWithValue)
    else if matchType != HOST && !HasPrefix(matchValue, "/") then Err(PathWithoutSlash)
    else Transformed(ProjectHTTPRoute(host.value, matchType, matchValue, false, "", priority), transform)
  }

  function AddLine(routes: seq<ProjectHTTPRoute>, line: string, number: nat): Parsed {
    if Blank(line) then Ok(routes) else
    var route := LineRoute(Fields(TrimSpace(line)), |routes|);
    if route.Err? then Err(ParseError(number, route.error))
    else if exists r | r in routes :: SpecKey(r) == SpecKey(route.value) then Err(ParseError(number, DuplicateRoute))
    else Ok(routes + [route.value])
  }

  function ParsedRoutes(raw: string): Parsed {
    Fold(Lines(raw), AddLine)
  }

  method ParseLine(fields: seq<string>, priority: nat) returns (result: Result<ProjectHTTPRoute, Problem>)
    ensures result == LineRoute(fields, priority)
  {
    if |fields| < 2 || |fields| > 4 {
      return Err(BadShape);
    }
    var host := fields[0];
    var matchType := NormalizeMatchType(fields[1]);
    var matchValue, transform := "", "";
    if |fields| >= 3 {
      matchValue := fields[2];
    }
    if |fields| == 4 {
      transform := fields[3];
    }
    if host == ALL_DOMAINS {
      host := "";
    }
    if host != "" {
      host := NormalizeHostname(host);
      if host == "" || ' ' in host {
        return Err(BadHost);
      }
    }
    var route := ProjectHTTPRoute(host, matchType, "", false, "", priority);
    if matchType == HOST {
      if matchValue != "" {
        return Err(HostWithValue);
      }
    } else {
      if !HasPrefix(matchValue, "/") {
        return Err(PathWithoutSlash);
      }
      route := route.(matchValue := matchValue);
    }
    if transform == "" {
    } else if EqualFold(transform, "strip") {
      if matchType != PATH_PREFIX {
        return Err(StripWithoutPrefix);
      }
      route := route.(stripPrefix := true);
    } else if HasPrefix(ToLower(transform), "rewrite=") {
      if matchType == HOST {
        return Err(RewriteWithoutPath);
      }
      var rewritePrefix := TrimSpace(transform[8..]);
      if !HasPrefix(rewritePrefix, "/") {
        return Err(RewriteWithoutSlash);
      }
      route := route.(rewritePrefix := rewritePrefix);
    } else {
      return Err(UnknownTransform);
    }
    return Ok(route);
  }

  method ParseHTTPRoutesText(raw: string) returns (result: Parsed)
    ensures result == ParsedRoutes(raw)
  {
    var lines := Lines(raw);
    var routes: seq<ProjectHTTPRoute> := [];
    var seen: set<string> := {};
    for index := 0 to |lines|
      invariant Fold(lines[..index], AddLine) == Ok(routes)
      invariant forall key :: key in seen <==> exists r :: r in routes && SpecKey(r) == key
    {
      FoldNext(lines, index, AddLine);
      ghost var step := AddLine(routes, lines[index], index + 1);
      if step.Err? { FoldFails(lines, index + 1, AddLine); }
      var line := TrimSpace(lines[index]);
      if line == "" {
        continue;
      }
      var parsed := ParseLine(Fields(line), |routes|);
      if parsed.Err? {
        return Err(ParseError(index + 1, parsed.error));
      }
      var route := parsed.value;
      var key := SpecKey(route);
      if key in seen {
        return Err(ParseError(index + 1, DuplicateRoute));
      }
      seen := seen + {key};
      routes := routes + [route];
    }
    assert lines[..|lines|] == lines;
    return Ok(routes);
  }

  // ---- Printing ----

  function PrintedHost(hostname: string): string {
    if Blank(hostname) then ALL_DOMAINS else hostname
  }

  function PrintedTransform(route: ProjectHTTPRoute): string {
    if route.stripPrefix then "strip"
    else if !Blank(route.rewritePrefix) then "rewrite=" + route.rewritePrefix
    else ""
  }

  function PrintedFields(route: ProjectHTTPRoute): seq<string> {
    var host, transform := PrintedHost(route.hostname), PrintedTransform(route);
    [host, route.matchType]
    + (if route.matchType != HOST then [route.matchValue] else [])
    + (if route.matchType != HOST || transform != "" then [transform] else [])
  }

  function PrintedLine(route: ProjectHTTPRoute): string {
    Join(PrintedFields(route), " | ")
  }

  function PrintedRoutes(routes: seq<ProjectHTTPRoute>): string {
    JoinLines(Map(routes, PrintedLine))
  }

  method HTTPRoutesText(routes: seq<ProjectHTTPRoute>) returns (text: string)
    ensures text == PrintedRoutes(routes)
  {
    if |routes| == 0 {
      return "";
    }
    var lines: seq<string> := [];
    for n := 0 to |routes|
      invariant lines == Map(routes, PrintedLine)[..n]
    {
      var route := routes[n];
      var host := route.hostname;
      if TrimSpace(host) == "" {
        host := ALL_DOMAINS;
      }
      var line := [host, route.matchType];
      if route.matchType != HOST {
        line := line + [route.matchValue];
      }
      var transform := "";
      if route.stripPrefix {
        transform := "strip";
      } else if TrimSpace(route.rewritePrefix) != "" {
        transform := "rewrite=" + route.rewritePrefix;
      }
      if route.matchType != HOST || transform != "" {
        line := line + [transform];
      }
      assert line == PrintedFields(route);
      assert Join(line, " | ") == PrintedLine(route) == Map(routes, PrintedLine)[n];
      lines := lines + [Join(line, " | ")];
    }
    assert lines == Map(routes, PrintedLine);
    return Join(lines, "\n");
  }

  // ---- What the parser accepts ----

  predicate Plain(s: string) {
    '|' !in s && '\n' !in s
  }

  predicate Path(s: string) {
    Trimmed(s) && Plain(s) && HasPrefix(s, "/")
  }

  /** The routes that the parser builds. */
  predicate Valid(route: ProjectHTTPRoute) {
    && Plain(route.hostname) && ' ' !in route.hostname && IsLower(route.hostname) && Clean(route.hostname, IsDot)
    && route.matchType in [HOST, PATH_PREFIX, PATH_EXACT]
    && (if route.matchType == HOST then route.matchValue == "" else Path(route.matchValue))
    && (route.stripPrefix ==> route.matchType == PATH_PREFIX && route.rewritePrefix == "")
    && (route.rewritePrefix != "" ==> route.matchType != HOST && Path(route.rewritePrefix))
  }

  /** The lists that the parser builds: valid routes numbered in order, no two with the same matcher. */
  predicate Accepted(routes: seq<ProjectHTTPRoute>) {
    && (forall k | 0 <= k < |routes| :: Valid(routes[k]) && routes[k].priority == k)
    && (forall i, j | 0 <= i < j < |routes| :: SpecKey(routes[i]) != SpecKey(routes[j]))
  }

  lemma {:induction false} LowerKeeps(s: string, c: char)
    requires c !in s && !('a' <= c <= 'z')
    ensures c !in ToLower(s)
  {
    forall i | 0 <= i < |s| ensures ToLower(s)[i] != c {
      assert s[i] in s;
    }
  }

  lemma NormalizedHostIsValid(field: string)
    requires Plain(field)
    ensures var host := NormalizeHostname(field);
            Plain(host) && IsLower(host) && Clean(host, IsDot) && |host| <= |TrimSpace(field)|
  {
    var trimmed := TrimSpace(field);
    var lower := ToLower(trimmed);
    TrimIsClean(field, IsSpace);
    LowerKeeps(trimmed, '|');
    LowerKeeps(trimmed, '\n');
    LowerIdempotent(trimmed);
    TrimIsClean(lower, IsDot);
    var i, j := TrimParts(lower, IsDot);
  }

  lemma HostIsValid(field: string)
    requires Plain(field) && HostOf(field).Ok?
    ensures var host := HostOf(field).value;
            Plain(host) && ' ' !in host && IsLower(host) && Clean(host, IsDot)
  {
    NormalizedHostIsValid(field);
  }

  lemma TransformedIsValid(route: ProjectHTTPRoute, transform: string)
    requires Plain(transform) && Valid(route) && !route.stripPrefix && route.rewritePrefix == ""
    requires Transformed(route, transform).Ok?
    ensures Valid(Transformed(route, transform).value)
    ensures Transformed(route, transform).value.priority == route.priority
  {
    if HasPrefix(ToLower(transform), "rewrite=") {
      TrimIsClean(transform[8..], IsSpace);
    }
  }

  lemma LineRouteIsValid(fields: seq<string>, priority: int)
    requires forall k :: 0 <= k < |fields| ==> Trimmed(fields[k]) && Plain(fields[k])
    requires LineRoute(fields, priority).Ok?
    ensures Valid(LineRoute(fields, priority).value)
    ensures LineRoute(fields, priority).value.priority == priority
  {
    hide HostOf, NormalizeHostname, Transformed;
    HostIsValid(fields[0]);
    var matchType, matchValue := NormalizeMatchType(fields[1]), if |fields| >= 3 then fields[2] else "";
    var route := ProjectHTTPRoute(HostOf(fields[0]).value, matchType, matchValue, false, "", priority);
    TransformedIsValid(route, if |fields| == 4 then fields[3] else "");
  }

  lemma LineAccepts(routes: seq<ProjectHTTPRoute>, line: string, number: nat)
    requires Accepted(routes) && '\n' !in line && AddLine(routes, line, number).Ok?
    ensures Accepted(AddLine(routes, line, number).value)
  {
    hide Trim, Split, Fields, LineRoute, Valid, SpecKey;
    if !Blank(line) {
      TrimIsClean(line, IsSpace);
      FieldsAreClean(TrimSpace(line));
      LineRouteIsValid(Fields(TrimSpace(line)), |routes|);
    }
  }

  lemma NothingIsAccepted()
    ensures Accepted([])
  {
  }

  lemma {:induction false} FoldAccepts(lines: seq<string>)
    requires forall line :: line in lines ==> '\n' !in line
    requires Fold(lines, AddLine).Ok?
    ensures Accepted(Fold(lines, AddLine).value)
  {
    hide AddLine, Accepted;
    if lines == [] {
      NothingIsAccepted();
    } else {
      var n := |lines| - 1;
      FoldAccepts(lines[..n]);
      assert '\n' !in lines[n];
      LineAccepts(Fold(lines[..n], AddLine).value, lines[n], |lines|);
    }
  }

  /** Whatever text the parser accepts, the list it returns is one of these. */
  lemma ParserAccepts(raw: string)
    requires ParsedRoutes(raw).Ok?
    ensures Accepted(ParsedRoutes(raw).value)
  {
    forall line | line in Lines(raw) ensures '\n' !in line { LinesHaveNoNewline(raw, line); }
    FoldAccepts(Lines(raw));
  }

  // ---- What the parser reads ----

  /** A line and the route that it stands for: host, kind of match, value and transform between bars, with
      white space around them, kind and transform in any case. */
  predicate LineSays(line: string, r: ProjectHTTPRoute) {
    var fields := Fields(TrimSpace(line));
    && 2 <= |fields| <= 4
    && (if fields[0] in ["", "@domains"] then r.hostname == ""
        else r.hostname == NormalizeHostname(fields[0]) && r.hostname != "" && ' ' !in r.hostname)
    && KindSays(TrimSpace(ToLower(fields[1])), r.matchType)
    && r.matchValue == (if |fields| >= 3 then fields[2] else "")
    && (if r.matchType == "host" then r.matchValue == "" else HasPrefix(r.matchValue, "/"))
    && TransformSays(if |fields| == 4 then fields[3] else "", r)
  }

  predicate KindSays(kind: string, matchType: string) {
    if kind in ["path_prefix", "prefix"] then matchType == "path_prefix"
    else if kind in ["path_exact", "exact"] then matchType == "path_exact"
    else matchType == "host"
  }

  predicate TransformSays(transform: string, r: ProjectHTTPRoute) {
    if transform == "" then !r.stripPrefix && r.rewritePrefix == ""
    else if ToLower(transform) == "strip" then r.matchType == "path_prefix" && r.stripPrefix && r.rewritePrefix == ""
    else
      && HasPrefix(ToLower(transform), "rewrite=") && r.matchType != "host" && !r.stripPrefix
      && r.rewritePrefix == TrimSpace(transform[8..]) && HasPrefix(r.rewritePrefix, "/")
  }

  lemma TransformReads(route: ProjectHTTPRoute, transform: string, r: ProjectHTTPRoute)
    requires !route.stripPrefix && route.rewritePrefix == "" && route.matchType in ["host", "path_prefix", "path_exact"]
    requires r.hostname == route.hostname && r.matchType == route.matchType && r.matchValue == route.matchValue && r.priority == route.priority
    ensures Transformed(route, transform) == Ok(r) <==> TransformSays(transform, r)
  {
    hide TrimSpace;
    assert IsLower("strip");
    LowerIdempotent("strip");
  }

  lemma TransformKeeps(route: ProjectHTTPRoute, transform: string)
    requires Transformed(route, transform).Ok?
    ensures var r := Transformed(route, transform).value;
            r.hostname == route.hostname && r.matchType == route.matchType && r.matchValue == route.matchValue && r.priority == route.priority
  {
  }

  /** The parser reads a line as a route exactly when the line says it. */
  lemma LineReads(line: string, priority: int, r: ProjectHTTPRoute)
    ensures LineRoute(Fields(TrimSpace(line)), priority) == Ok(r) <==> LineSays(line, r) && r.priority == priority
  {
    hide TrimSpace, ToLower, Fields, NormalizeHostname, Transformed, TransformSays;
    var fields := Fields(TrimSpace(line));
    if 2 <= |fields| <= 4 && HostOf(fields[0]).Ok? {
      var route := ProjectHTTPRoute(HostOf(fields[0]).value, NormalizeMatchType(fields[1]), if |fields| >= 3 then fields[2] else "", false, "", priority);
      var transform := if |fields| == 4 then fields[3] else "";
      if Transformed(route, transform) == Ok(r) {
        TransformKeeps(route, transform);
      }
      if r.hostname == route.hostname && r.matchType == route.matchType && r.matchValue == route.matchValue && r.priority == priority {
        TransformReads(route, transform, r);
      }
    }
  }

  /** The line says the route, which is the one at that place. */
  function Says(): (string, nat, ProjectHTTPRoute) -> bool {
    (line, place, r) => LineSays(line, r) && r.priority == place
  }

  function SameMatcher(): (ProjectHTTPRoute, ProjectHTTPRoute) -> bool {
    (a, b) => SpecKey(a) == SpecKey(b)
  }

  lemma AddsThis(done: seq<ProjectHTTPRoute>, line: string, number: nat, before: seq<ProjectHTTPRoute>, r: ProjectHTTPRoute)
    requires !Blank(line)
    ensures AddLine(done, line, number) == Ok(before + [r]) <==>
              && done == before && LineRoute(Fields(TrimSpace(line)), |before|) == Ok(r)
              && forall old_ :: old_ in before ==> SpecKey(old_) != SpecKey(r)
  {
    hide LineRoute, Fields, Trim, SpecKey;
    if AddLine(done, line, number) == Ok(before + [r]) {
      var added := LineRoute(Fields(TrimSpace(line)), |done|).value;
      assert done + [added] == before + [r];
      assert (done + [added])[..|before|] == before && (done + [added])[|before|] == r;
    }
  }

  lemma AddLineSkips(done: seq<ProjectHTTPRoute>, line: string, number: nat)
    ensures if Blank(line) then AddLine(done, line, number) == Ok(done) else AddLine(done, line, number) != Ok([])
  {
    hide LineRoute, Fields, Trim, SpecKey;
  }

  lemma AddLineReads()
    ensures Reads(AddLine, Says(), SameMatcher())
  {
    hide LineSays, SpecKey, LineRoute, Trim, Fields, AddLine;
    forall done, line, n ensures SkipsBlank(AddLine, done, line, n) { AddLineSkips(done, line, n); }
    forall done, line, n, before, x: ProjectHTTPRoute | !Blank(line)
      ensures AddsIt(AddLine, Says(), SameMatcher(), done, line, n, before, x)
    {
      AddsThis(done, line, n, before, x);
      LineReads(line, |before|, x);
    }
  }

  /** For every text: the parser returns these routes exactly when they are what its lines say that are not
      blank, numbered in order, no two with the same matcher. */
  lemma ParsedIff(raw: string, routes: seq<ProjectHTTPRoute>)
    ensures ParsedRoutes(raw) == Ok(routes) <==> Tell(Filter(Lines(raw), NotBlank), routes, Says(), SameMatcher())
  {
    AddLineReads();
    FoldTells(Lines(raw), routes, AddLine, Says(), SameMatcher());
  }

  // ---- Printing, then parsing ----

  lemma KeywordIsNormal(word: string)
    requires IsLower(word) && Trimmed(word)
    ensures TrimSpace(ToLower(word)) == word
  {
    LowerIdempotent(word);
    TrimCleanIsIdentity(word, IsSpace);
  }

  lemma MatchTypeIsNormal(matchType: string)
    requires matchType in [HOST, PATH_PREFIX, PATH_EXACT]
    ensures TrimSpace(matchType) == matchType && NormalizeMatchType(matchType) == matchType
    ensures Plain(matchType)
  {
    assert HOST[0] == 'h' && PATH_PREFIX[0] == 'p' && PATH_EXACT[0] == 'p';
    assert HOST[3] == 't' && PATH_PREFIX[10] == 'x' && PATH_EXACT[9] == 't';
    KeywordIsNormal(matchType);
    TrimCleanIsIdentity(matchType, IsSpace);
  }

  lemma PlainParts(route: ProjectHTTPRoute)
    requires Valid(route)
    ensures forall k :: 0 <= k < |PrintedFields(route)| ==> Plain(PrintedFields(route)[k])
  {
    MatchTypeIsNormal(route.matchType);
    assert Plain("rewrite=");
  }

  lemma FieldsOfPrinted(route: ProjectHTTPRoute)
    requires Valid(route)
    ensures Fields(TrimSpace(PrintedLine(route))) == Map(PrintedFields(route), TrimSpace)
  {
    PlainParts(route);
    FieldsOfTrimmed(PrintedLine(route));
    FieldsOfJoin(PrintedFields(route));
  }

  lemma PrintedLineNotBlank(route: ProjectHTTPRoute)
    requires Valid(route)
    ensures !Blank(PrintedLine(route))
  {
    FieldsOfPrinted(route);
    assert |Fields("")| == 1;
  }

  lemma PrintedLineIsOneLine(route: ProjectHTTPRoute)
    requires Valid(route)
    ensures '\n' !in PrintedLine(route)
  {
    PlainParts(route);
    JoinKeepsOut(PrintedFields(route), " | ", '\n');
  }

  /** The hostnames that survive a round trip through the form. */
  predicate Printable(hostname: string) {
    Trimmed(hostname) && hostname != ALL_DOMAINS
  }

  lemma TransformReadsBack(route: ProjectHTTPRoute)
    requires Valid(route) && route.matchType != HOST
    ensures TrimSpace(PrintedTransform(route)) == PrintedTransform(route)
    ensures Transformed(ProjectHTTPRoute(route.hostname, route.matchType, route.matchValue, false, "", route.priority),
                        PrintedTransform(route)) == Ok(route)
  {
    var transform := PrintedTransform(route);
    CleanIffFixed(route.rewritePrefix, IsSpace);
    CleanIffFixed(transform, IsSpace);
    if !route.stripPrefix && route.rewritePrefix != "" {
      assert transform[8..] == route.rewritePrefix;
      assert |ToLower(transform)| == |transform| > 8 && |ToLower("strip")| == 5;
      RewriteKeyword(route.rewritePrefix);
    }
  }

  lemma RewriteKeyword(target: string)
    ensures HasPrefix(ToLower("rewrite=" + target), "rewrite=")
  {
    var t := "rewrite=" + target;
    assert forall i :: 0 <= i < 8 ==> t[i] == "rewrite="[i];
    assert IsLower("rewrite=");
    forall i | 0 <= i < 8 ensures ToLower(t)[i] == "rewrite="[i] {
    }
    assert ToLower(t)[..8] == "rewrite=";
  }

  lemma AllDomainsIsTrimmed()
    ensures TrimSpace(ALL_DOMAINS) == ALL_DOMAINS && !Blank(ALL_DOMAINS)
  {
    assert ALL_DOMAINS[0] == '@' && ALL_DOMAINS[7] == 's';
    TrimCleanIsIdentity(ALL_DOMAINS, IsSpace);
  }

  lemma HostReadsBack(hostname: string)
    requires ' ' !in hostname && IsLower(hostname) && Clean(hostname, IsDot) && Printable(hostname)
    ensures HostOf(TrimSpace(PrintedHost(hostname))) == Ok(hostname)
  {
    AllDomainsIsTrimmed();
    CleanIffFixed(hostname, IsSpace);
    LowerIdempotent(hostname);
    CleanIffFixed(hostname, IsDot);
    assert NormalizeHostname(hostname) == hostname;
  }

  lemma HostLine(field: string, host: string, priority: int)
    requires HostOf(field) == Ok(host) && NormalizeMatchType(HOST) == HOST
    ensures LineRoute([field, HOST], priority) == Ok(ProjectHTTPRoute(host, HOST, "", false, "", priority))
  {
  }

  lemma PathLine(field: string, host: string, matchType: string, matchValue: string, transform: string, priority: int)
    requires HostOf(field) == Ok(host) && NormalizeMatchType(matchType) == matchType != HOST
    requires HasPrefix(matchValue, "/")
    ensures LineRoute([field, matchType, matchValue, transform], priority) ==
            Transformed(ProjectHTTPRoute(host, matchType, matchValue, false, "", priority), transform)
  {
  }

  lemma MapFour<T, U>(a: T, b: T, c: T, d: T, f: T -> U)
    ensures Map([a, b], f) == [f(a), f(b)]
    ensures Map([a, b, c, d], f) == [f(a), f(b), f(c), f(d)]
  {
  }

  lemma PrintedFieldsReadBack(route: ProjectHTTPRoute)
    requires Valid(route) && Printable(route.hostname)
    ensures LineRoute(Map(PrintedFields(route), TrimSpace), route.priority) == Ok(route)
  {
    hide LineRoute, HostOf, Transformed;
    var field, transform := PrintedHost(route.hostname), PrintedTransform(route);
    MapFour(field, route.matchType, route.matchValue, transform, TrimSpace);
    HostReadsBack(route.hostname);
    MatchTypeIsNormal(route.matchType);
    if route.matchType == HOST {
      assert PrintedFields(route) == [field, HOST];
      HostLine(TrimSpace(field), route.hostname, route.priority);
    } else {
      TransformReadsBack(route);
      TrimCleanIsIdentity(route.matchValue, IsSpace);
      assert PrintedFields(route) == [field, route.matchType, route.matchValue, transform];
      PathLine(TrimSpace(field), route.hostname, route.matchType, route.matchValue, transform, route.priority);
    }
  }

  lemma LinesOfPrinted(routes: seq<ProjectHTTPRoute>)
    requires routes != [] && forall k :: 0 <= k < |routes| ==> Valid(routes[k])
    ensures Lines(PrintedRoutes(routes)) == Map(routes, PrintedLine)
  {
    var lines := Map(routes, PrintedLine);
    forall k | 0 <= k < |lines| ensures '\n' !in lines[k] { PrintedLineIsOneLine(routes[k]); }
    LinesOfJoin(lines);
  }

  lemma EmptyTextIsEmptyList()
    ensures ParsedRoutes("") == Ok([])
  {
    assert Lines("") == [""] && Lines("")[..0] == [];
    assert Fold(Lines(""), AddLine) == AddLine([], "", 1);
  }

  lemma PrintedLineAdds(routes: seq<ProjectHTTPRoute>, k: nat)
    requires Accepted(routes) && k < |routes| && Printable(routes[k].hostname)
    ensures AddLine(routes[..k], PrintedLine(routes[k]), k + 1) == Ok(routes[..k + 1])
  {
    hide PrintedLine, LineRoute, TrimSpace, PrintedFields, Valid;
    PrintedLineNotBlank(routes[k]);
    FieldsOfPrinted(routes[k]);
    PrintedFieldsReadBack(routes[k]);
    forall r | r in routes[..k] ensures SpecKey(r) != SpecKey(routes[k]) {
      var i :| 0 <= i < k && routes[..k][i] == r;
    }
    assert routes[..k + 1] == routes[..k] + [routes[k]];
  }

  lemma PrintableRoundTrips(routes: seq<ProjectHTTPRoute>)
    requires Accepted(routes)
    requires forall k :: 0 <= k < |routes| ==> Printable(routes[k].hostname)
    ensures ParsedRoutes(PrintedRoutes(routes)) == Ok(routes)
  {
    hide PrintedLine, AddLine, Valid, SpecKey;
    if routes == [] {
      EmptyTextIsEmptyList();
    } else {
      LinesOfPrinted(routes);
      var lines := Map(routes, PrintedLine);
      forall k | 0 <= k < |routes| ensures AddLine(routes[..k], lines[k], k + 1) == Ok(routes[..k + 1]) {
        PrintedLineAdds(routes, k);
      }
      FoldBuilds(routes, lines, AddLine);
    }
  }

  lemma ShorterWhenTrimmed(s: string)
    requires TrimSpace(s) != s
    ensures |TrimSpace(s)| < |s|
  {
    var i, j := TrimParts(s, IsSpace);
    assert s[0..|s|] == s;
  }

  /** A hostname that is not printable reads back as a different one. */
  lemma UnprintableReadsOther(hostname: string)
    requires !Printable(hostname)
    ensures HostOf(TrimSpace(PrintedHost(hostname))) != Ok(hostname)
  {
    AllDomainsIsTrimmed();
    CleanIffFixed(hostname, IsSpace);
    if !Blank(hostname) && hostname != ALL_DOMAINS {
      var field := TrimSpace(hostname);
      ShorterWhenTrimmed(hostname);
      TrimIsClean(field, IsSpace);
      TrimIsClean(ToLower(TrimSpace(field)), IsDot);
    }
  }

  lemma AddLineAddsAtMostOne()
    ensures AddsAtMostOne(AddLine)
  {
  }

  lemma LineKeepsHost(fields: seq<string>, priority: int)
    requires LineRoute(fields, priority).Ok?
    ensures HostOf(fields[0]) == Ok(LineRoute(fields, priority).value.hostname)
  {
  }

  lemma UnprintableLine(done: seq<ProjectHTTPRoute>, route: ProjectHTTPRoute, number: nat)
    requires Valid(route) && !Printable(route.hostname)
    ensures AddLine(done, PrintedLine(route), number) != Ok(done + [route])
  {
    var fields := Map(PrintedFields(route), TrimSpace);
    PrintedLineNotBlank(route);
    FieldsOfPrinted(route);
    UnprintableReadsOther(route.hostname);
    var parsed := LineRoute(fields, |done|);
    if parsed.Ok? {
      LineKeepsHost(fields, |done|);
      assert parsed.value.hostname != route.hostname;
      assert (done + [parsed.value])[|done|] != (done + [route])[|done|];
    }
  }

  lemma UnprintableFails(routes: seq<ProjectHTTPRoute>, k: nat)
    requires Accepted(routes) && k < |routes| && !Printable(routes[k].hostname)
    ensures ParsedRoutes(PrintedRoutes(routes)) != Ok(routes)
  {
    var lines := Map(routes, PrintedLine);
    LinesOfPrinted(routes);
    UnprintableLine(routes[..k], routes[k], k + 1);
    assert routes[..k + 1] == routes[..k] + [routes[k]];
    AddLineAddsAtMostOne();
    FoldRejects(lines, routes, k, AddLine);
  }

  /** Printing and parsing a list the parser accepted gives it back exactly when every hostname is
      trimmed and none is the keyword for all domains, as ".@domains" becomes. */
  lemma RoutesRoundTrip(raw: string)
    requires ParsedRoutes(raw).Ok?
    ensures var routes := ParsedRoutes(raw).value;
            && Accepted(routes)
            && (ParsedRoutes(PrintedRoutes(routes)) == Ok(routes)
                <==> forall k :: 0 <= k < |routes| ==> Printable(routes[k].hostname))
  {
    ParserAccepts(raw);
    var routes := ParsedRoutes(raw).value;
    if forall k :: 0 <= k < |routes| ==> Printable(routes[k].hostname) {
      PrintableRoundTrips(routes);
    } else {
      var k :| 0 <= k < |routes| && !Printable(routes[k].hostname);
      UnprintableFails(routes, k);
    }
  }

  const KEYWORD_TEXT := ".@domains" + " | " + HOST

  lemma KeywordHostReads()
    ensures HostOf(TrimSpace(".@domains")) == Ok(ALL_DOMAINS)
  {
    var field := ".@domains";
    assert field[0] == '.' && field[8] == 's';
    TrimCleanIsIdentity(field, IsSpace);
    assert IsLower(field);
    LowerIdempotent(field);
    assert field == "." + ALL_DOMAINS + "";
    assert ALL_DOMAINS[0] == '@' && ALL_DOMAINS[7] == 's';
    TrimPadded(".", ALL_DOMAINS, "", IsDot);
    assert ' ' !in ALL_DOMAINS;
  }

  lemma OneLineParses(line: string, route: ProjectHTTPRoute)
    requires '\n' !in line && LineRoute(Fields(line), 0) == Ok(route) && |Fields(line)| == 2
    ensures ParsedRoutes(line) == Ok([route])
  {
    SplitFree(line, IsChar('\n'));
    FieldsOfTrimmed(line);
    assert |Fields("")| == 1;
    hide TrimSpace, Fields, LineRoute;
    assert Lines(line) == [line] && [line][..0] == [];
    assert !Blank(line);
    assert [] + [route] == [route];
    assert AddLine([], line, 1) == Ok([route]);
    assert Fold(Lines(line), AddLine) == AddLine([], line, 1);
  }

  function KeywordRoute(): ProjectHTTPRoute {
    ProjectHTTPRoute(ALL_DOMAINS, HOST, "", false, "", 0)
  }

  lemma TwoFields(a: string, b: string)
    requires '|' !in a && '|' !in b
    ensures Fields(a + " | " + b) == [TrimSpace(a), TrimSpace(b)]
  {
    hide Fields, TrimSpace;
    FieldsOfJoin([a, b]);
    assert [a, b][1..] == [b];
    assert Map([a, b], TrimSpace) == [TrimSpace(a), TrimSpace(b)];
  }

  lemma KeywordLineReads()
    ensures |Fields(KEYWORD_TEXT)| == 2 && LineRoute(Fields(KEYWORD_TEXT), 0) == Ok(KeywordRoute())
  {
    hide TrimSpace, Fields, LineRoute, HostOf, NormalizeMatchType;
    TwoFields(".@domains", HOST);
    MatchTypeIsNormal(HOST);
    KeywordHostReads();
    HostLine(TrimSpace(".@domains"), ALL_DOMAINS, 0);
  }

  /** A text whose only route is for one host and comes back for all domains. */
  lemma KeywordHostIsLost()
    ensures ParsedRoutes(KEYWORD_TEXT) == Ok([KeywordRoute()])
    ensures ParsedRoutes(PrintedRoutes([KeywordRoute()])) != Ok([KeywordRoute()])
  {
    hide ParsedRoutes, PrintedRoutes, LineRoute, Fields;
    KeywordLineReads();
    OneLineParses(KEYWORD_TEXT, KeywordRoute());
    LostWhenUnprintable(KEYWORD_TEXT, KeywordRoute());
  }

  lemma LostWhenUnprintable(text: string, route: ProjectHTTPRoute)
    requires ParsedRoutes(text) == Ok([route]) && !Printable(route.hostname)
    ensures ParsedRoutes(PrintedRoutes([route])) != Ok([route])
  {
    hide ParsedRoutes, PrintedRoutes, Printable, Accepted;
    ParserAccepts(text);
    UnprintableFails([route], 0);
  }

  // ---- Storing, then loading ----

  /** A stored row; empty text is stored as NULL. */
  datatype Row = Row(
    hostname: Option<string>,
    matchType: string,
    matchValue: Option<string>,
    stripPrefix: bool,
    rewritePrefix: Option<string>,
    priority: int)

  function Nullable(value: string): Option<string> {
    if value == "" then None else Some(value)
  }

  function FromNullable(value: Option<string>): string {
    if value.None? then "" else value.value
  }

  function ToRow(route: ProjectHTTPRoute): Row {
    Row(Nullable(route.hostname), route.matchType, Nullable(route.matchValue), route.stripPrefix,
        Nullable(route.rewritePrefix), route.priority)
  }

  function FromRow(row: Row): ProjectHTTPRoute {
    ProjectHTTPRoute(FromNullable(row.hostname), row.matchType, FromNullable(row.matchValue), row.stripPrefix,
                     FromNullable(row.rewritePrefix), row.priority)
  }

  /** The order in which routes are inserted. */
  predicate RouteBefore(a: ProjectHTTPRoute, b: ProjectHTTPRoute) {
    if a.priority != b.priority then a.priority < b.priority
    else if a.hostname != b.hostname then StrLess(a.hostname, b.hostname)
    else if a.matchType != b.matchType then StrLess(a.matchType, b.matchType)
    else StrLess(a.matchValue, b.matchValue)
  }

  /** The order in which rows are listed, NULL first, rows that tie in the order of insertion. */
  predicate RowBefore(a: Row, b: Row) {
    RouteBefore(FromRow(a), FromRow(b))
  }

  class RouteTable {
    var rows: map<string, seq<Row>>

    constructor ()
      ensures rows == map[]
    {
      rows := map[];
    }

    method Replace(projectId: string, routes: seq<ProjectHTTPRoute>)
      modifies this
      ensures rows == old(rows)[projectId := Map(Sort(routes, RouteBefore), ToRow)]
    {
      rows := rows[projectId := []];
      var sortedRoutes := Sort(routes, RouteBefore);
      for n := 0 to |sortedRoutes|
        invariant rows == old(rows)[projectId := Map(sortedRoutes, ToRow)[..n]]
      {
        assert Map(sortedRoutes, ToRow)[..n + 1] == Map(sortedRoutes, ToRow)[..n] + [ToRow(sortedRoutes[n])];
        rows := rows[projectId := rows[projectId] + [ToRow(sortedRoutes[n])]];
      }
      assert Map(sortedRoutes, ToRow)[..|sortedRoutes|] == Map(sortedRoutes, ToRow);
    }

    method Load(projectId: string) returns (routes: seq<ProjectHTTPRoute>)
      ensures routes == if projectId in rows then Map(Sort(rows[projectId], RowBefore), FromRow) else []
    {
      routes := [];
      if projectId in rows {
        var listed := Sort(rows[projectId], RowBefore);
        for n := 0 to |listed|
          invariant routes == Map(listed, FromRow)[..n]
        {
          routes := routes + [FromRow(listed[n])];
        }
        assert routes == Map(listed, FromRow);
      }
    }
  }

  /** Storing an accepted list and loading it gives the same list in the same order. */
  lemma StoreAndLoad(routes: seq<ProjectHTTPRoute>)
    requires Accepted(routes)
    ensures Map(Sort(Map(Sort(routes, RouteBefore), ToRow), RowBefore), FromRow) == routes
  {
    SortedIsFixed(routes, RouteBefore);
    var rows := Map(routes, ToRow);
    forall r ensures FromRow(ToRow(r)) == r {
    }
    SortedIsFixed(rows, RowBefore);
  }
}
