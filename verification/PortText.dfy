/** The published ports of a project, as text in the project form. */
module PortText {
  import opened Text
  import opened Sequences
  import opened Sorting
  import opened TextLines

  datatype ProjectPort = ProjectPort(proto: string, hostPort: int, containerPort: int)

  datatype PortError =
    | NoMapping
    | BadMapping(line: string)
    | BadHostPort(line: string)
    | BadContainerPort(line: string)
    | DuplicateMapping(line: string)
    | HostPortTwice(hostPort: int)

  type Parsed = Result<seq<ProjectPort>, PortError>

  predicate Separates(c: char) {
    c == '\n' || c == '\r' || c == ','
  }

  predicate PortNumber(n: int) {
    1 <= n <= 65535
  }

  predicate IsPort(s: string) {
    Atoi(TrimSpace(s)).Some? && PortNumber(Atoi(TrimSpace(s)).value)
  }

  /** The ports of one trimmed line. */
  function ReadPort(line: string, proto: string): Result<ProjectPort, PortError> {
    var parts := Split(line, ':');
    if |parts| != 2 then Err(BadMapping(line))
    else if !IsPort(parts[0]) then Err(BadHostPort(line))
    else if !IsPort(parts[1]) then Err(BadContainerPort(line))
    else Ok(ProjectPort(proto, Atoi(TrimSpace(parts[0])).value, Atoi(TrimSpace(parts[1])).value))
  }

  function AddPort(ports: seq<ProjectPort>, raw: string, proto: string): Parsed {
    if Blank(raw) then Ok(ports) else
    var line := TrimSpace(raw);
    var port := ReadPort(line, proto);
    if port.Err? then Err(port.error)
    else if port.value in ports then Err(DuplicateMapping(line))
    else if exists p | p in ports :: p.hostPort == port.value.hostPort then Err(HostPortTwice(port.value.hostPort))
    else Ok(ports + [port.value])
  }

  function Adding(proto: string): (seq<ProjectPort>, string, nat) -> Parsed {
    (ports, raw, number) => AddPort(ports, raw, proto)
  }

  predicate PortLess(a: ProjectPort, b: ProjectPort) {
    if a.hostPort != b.hostPort then a.hostPort < b.hostPort else a.containerPort < b.containerPort
  }

  function ParsedPorts(raw: string, proto: string): Parsed {
    var ports := Fold(FieldsFunc(raw, Separates), Adding(proto));
    if ports.Err? then ports
    else if ports.value == [] then Err(NoMapping)
    else Ok(Sort(ports.value, PortLess))
  }

  method ParsePortMappings(raw: string, proto: string) returns (result: Parsed)
    ensures result == ParsedPorts(raw, proto)
  {
    var lines := FieldsFunc(raw, Separates);
    if |lines| == 0 {
      return Err(NoMapping);
    }
    var seen: set<(int, int)> := {};
    var seenHostPorts: set<int> := {};
    var ports: seq<ProjectPort> := [];
    for n := 0 to |lines|
      invariant Fold(lines[..n], Adding(proto)) == Ok(ports)
      invariant forall p :: p in ports ==> p.proto == proto
      invariant forall pair :: pair in seen <==> ProjectPort(proto, pair.0, pair.1) in ports
      invariant forall port :: port in seenHostPorts <==> exists p :: p in ports && p.hostPort == port
    {
      FoldNext(lines, n, Adding(proto));
      ghost var step := AddPort(ports, lines[n], proto);
      if step.Err? { FoldFails(lines, n + 1, Adding(proto)); }
      var line := TrimSpace(lines[n]);
      if line == "" {
        continue;
      }
      var read := ReadMapping(line, proto);
      if read.Err? {
        return Err(read.error);
      }
      var port := read.value;
      if (port.hostPort, port.containerPort) in seen {
        return Err(DuplicateMapping(line));
      }
      if port.hostPort in seenHostPorts {
        return Err(HostPortTwice(port.hostPort));
      }
      seen := seen + {(port.hostPort, port.containerPort)};
      seenHostPorts := seenHostPorts + {port.hostPort};
      ports := ports + [port];
    }
    assert lines[..|lines|] == lines;
    if |ports| == 0 {
      return Err(NoMapping);
    }
    return Ok(Sort(ports, PortLess));
  }

  method ReadMapping(line: string, proto: string) returns (result: Result<ProjectPort, PortError>)
    ensures result == ReadPort(line, proto)
    ensures result.Ok? ==> result.value.proto == proto
  {
    var parts := Split(line, ':');
    if |parts| != 2 {
      return Err(BadMapping(line));
    }
    var hostPort := Atoi(TrimSpace(parts[0]));
    if hostPort.None? || hostPort.value <= 0 || hostPort.value > 65535 {
      return Err(BadHostPort(line));
    }
    var containerPort := Atoi(TrimSpace(parts[1]));
    if containerPort.None? || containerPort.value <= 0 || containerPort.value > 65535 {
      return Err(BadContainerPort(line));
    }
    return Ok(ProjectPort(proto, hostPort.value, containerPort.value));
  }

  function Decimal(n: int): string {
    if n < 0 then "-" + Itoa(-n) else Itoa(n)
  }

  function PrintedPort(port: ProjectPort): string {
    Decimal(port.hostPort) + ":" + Decimal(port.containerPort)
  }

  function PrintedPorts(ports: seq<ProjectPort>): string {
    JoinLines(Map(ports, PrintedPort))
  }

  method PortMappingsText(ports: seq<ProjectPort>) returns (text: string)
    ensures text == PrintedPorts(ports)
  {
    hide Itoa, Decimal;
    if |ports| == 0 {
      return "";
    }
    var lines: seq<string> := [];
    for n := 0 to |ports|
      invariant lines == Map(ports, PrintedPort)[..n]
    {
      assert Map(ports, PrintedPort)[n] == PrintedPort(ports[n]);
      lines := lines + [Decimal(ports[n].hostPort) + ":" + Decimal(ports[n].containerPort)];
    }
    assert lines == Map(ports, PrintedPort);
    return Join(lines, "\n");
  }

  // ---- What the parser accepts ----

  predicate Valid(port: ProjectPort, proto: string) {
    port.proto == proto && PortNumber(port.hostPort) && PortNumber(port.containerPort)
  }

  /** At least one port, all of the protocol and in range, by increasing host port. */
  predicate Accepted(ports: seq<ProjectPort>, proto: string) {
    && ports != []
    && (forall k | 0 <= k < |ports| :: Valid(ports[k], proto))
    && (forall i, j | 0 <= i < j < |ports| :: ports[i].hostPort < ports[j].hostPort)
  }

  /** What the lines build before they are sorted. */
  predicate Collected(ports: seq<ProjectPort>, proto: string) {
    && (forall k | 0 <= k < |ports| :: Valid(ports[k], proto))
    && (forall i, j | 0 <= i < j < |ports| :: ports[i].hostPort != ports[j].hostPort)
  }

  lemma {:induction false} FoldCollects(lines: seq<string>, proto: string)
    requires Fold(lines, Adding(proto)).Ok?
    ensures Collected(Fold(lines, Adding(proto)).value, proto)
  {
    hide Atoi, TrimSpace, Split;
    if lines != [] {
      FoldCollects(lines[..|lines| - 1], proto);
    }
  }

  lemma PortLessIsStrictWeak()
    ensures StrictWeakOrder(PortLess)
  {
  }

  lemma SortedStaysValid(ports: seq<ProjectPort>, sorted: seq<ProjectPort>, proto: string)
    requires Collected(ports, proto) && multiset(sorted) == multiset(ports)
    ensures forall k :: 0 <= k < |sorted| ==> Valid(sorted[k], proto)
    ensures forall i, j :: 0 <= i < j < |sorted| ==> sorted[i].hostPort != sorted[j].hostPort
  {
    MultisetMembers(sorted, ports);
    forall k | 0 <= k < |sorted| ensures Valid(sorted[k], proto) {
      assert sorted[k] in ports;
    }
    forall i, j | 0 <= i < j < |sorted| ensures sorted[i].hostPort != sorted[j].hostPort {
      if sorted[i].hostPort == sorted[j].hostPort {
        SamePortOnce(ports, sorted, i, j);
      }
    }
  }

  lemma SamePortOnce(ports: seq<ProjectPort>, sorted: seq<ProjectPort>, i: nat, j: nat)
    requires forall a, b | 0 <= a < b < |ports| :: ports[a].hostPort != ports[b].hostPort
    requires multiset(sorted) == multiset(ports) && i < j < |sorted|
    ensures sorted[i].hostPort != sorted[j].hostPort
  {
    MultisetMembers(sorted, ports);
    assert sorted[i] in ports && sorted[j] in ports;
    if sorted[i] == sorted[j] {
      TwiceInMultiset(sorted, i, j);
      OnceInMultiset(ports, sorted[i]);
    }
  }

  lemma {:induction false} OnceInMultiset(ports: seq<ProjectPort>, p: ProjectPort)
    requires forall a, b | 0 <= a < b < |ports| :: ports[a].hostPort != ports[b].hostPort
    ensures multiset(ports)[p] <= 1
  {
    if ports != [] {
      OnceInMultiset(ports[1..], p);
      assert ports == [ports[0]] + ports[1..];
      if p == ports[0] { assert p !in ports[1..]; }
    }
  }

  /** Every list the parser returns: ports in range, sorted, no host port twice. */
  lemma ParserAccepts(raw: string, proto: string)
    requires ParsedPorts(raw, proto).Ok?
    ensures Accepted(ParsedPorts(raw, proto).value, proto)
  {
    var ports := Fold(FieldsFunc(raw, Separates), Adding(proto)).value;
    FoldCollects(FieldsFunc(raw, Separates), proto);
    PortLessIsStrictWeak();
    SortIsSortOf(ports, PortLess);
    var sorted := Sort(ports, PortLess);
    SortedStaysValid(ports, sorted, proto);
    MultisetMembers(sorted, ports);
    forall i, j | 0 <= i < j < |sorted| ensures sorted[i].hostPort < sorted[j].hostPort {
      assert !PortLess(sorted[j], sorted[i]);
    }
  }

  // ---- What a text says ----

  /** A line says two ports in range, the host's first. */
  predicate LineSays(line: string, proto: string, p: ProjectPort) {
    var parts := Split(TrimSpace(line), ':');
    && |parts| == 2 && p.proto == proto
    && Atoi(TrimSpace(parts[0])) == Some(p.hostPort) && 0 < p.hostPort < 65536
    && Atoi(TrimSpace(parts[1])) == Some(p.containerPort) && 0 < p.containerPort < 65536
  }

  function Says(proto: string): (string, nat, ProjectPort) -> bool {
    (line, place, p) => LineSays(line, proto, p)
  }

  function SameHostPort(): (ProjectPort, ProjectPort) -> bool {
    (a: ProjectPort, b: ProjectPort) => a.hostPort == b.hostPort
  }

  lemma AddsThis(done: seq<ProjectPort>, line: string, proto: string, before: seq<ProjectPort>, p: ProjectPort)
    requires !Blank(line)
    ensures AddPort(done, line, proto) == Ok(before + [p]) <==>
              done == before && LineSays(line, proto, p) && forall y :: y in before ==> y.hostPort != p.hostPort
  {
    hide Trim, Split, Atoi;
    var step := AddPort(done, line, proto);
    if step.Ok? {
      var added := ReadPort(TrimSpace(line), proto).value;
      assert step.value == done + [added];
      if done + [added] == before + [p] {
        assert (done + [added])[..|before|] == before && (done + [added])[|before|] == p;
      }
    }
  }

  lemma AddPortReads(proto: string)
    ensures Reads(Adding(proto), Says(proto), SameHostPort())
  {
    hide LineSays, AddPort, Blank;
    forall done, line, n ensures SkipsBlank(Adding(proto), done, line, n) { AddPortSkips(done, line, proto); }
    forall done, line, n, before, x: ProjectPort | !Blank(line)
      ensures AddsIt(Adding(proto), Says(proto), SameHostPort(), done, line, n, before, x)
    {
      AddsThis(done, line, proto, before, x);
    }
  }

  lemma AddPortSkips(done: seq<ProjectPort>, line: string, proto: string)
    ensures if Blank(line) then AddPort(done, line, proto) == Ok(done) else AddPort(done, line, proto) != Ok([])
  {
  }

  /** Some lines tell the ports, in some order: at least one, and no host port twice. */
  ghost predicate TellSorted(lines: seq<string>, proto: string, ports: seq<ProjectPort>) {
    exists written :: Tell(Filter(lines, NotBlank), written, Says(proto), SameHostPort()) && written != [] && Increasing(ports, written)
  }

  predicate Increasing(ports: seq<ProjectPort>, written: seq<ProjectPort>) {
    multiset(ports) == multiset(written) && forall i, j :: 0 <= i < j < |ports| ==> ports[i].hostPort < ports[j].hostPort
  }

  /** By host port first, and then in some way that tells all ports apart. */
  predicate TotalLess(a: ProjectPort, b: ProjectPort) {
    if a.hostPort != b.hostPort || a.containerPort != b.containerPort then PortLess(a, b) else StrLess(a.proto, b.proto)
  }

  lemma IncreasingIsSorted(ports: seq<ProjectPort>, written: seq<ProjectPort>, proto: string)
    requires Collected(written, proto)
    ensures Increasing(ports, written) <==> ports == Sort(written, PortLess)
  {
    PortLessIsStrictWeak();
    SortIsSortOf(written, PortLess);
    var sorted := Sort(written, PortLess);
    SortedStaysValid(written, sorted, proto);
    forall i, j | 0 <= i < j < |sorted| ensures sorted[i].hostPort < sorted[j].hostPort {
      assert !PortLess(sorted[j], sorted[i]);
    }
    if Increasing(ports, written) {
      StrLessTotalOrder();
      assert SortedBy(ports, TotalLess) && SortedBy(sorted, TotalLess);
      SortOfUnique(ports, sorted, TotalLess);
    }
  }

  /** For every list of lines: the parser returns these ports exactly when the lines that are not blank tell
      them. */
  lemma ParsedIff(raw: string, proto: string, ports: seq<ProjectPort>)
    ensures ParsedPorts(raw, proto) == Ok(ports) <==> TellSorted(FieldsFunc(raw, Separates), proto, ports)
  {
    hide Tell, FieldsFunc, Collected, Increasing;
    var lines := FieldsFunc(raw, Separates);
    AddPortReads(proto);
    forall written ensures Fold(lines, Adding(proto)) == Ok(written) <==> Tell(Filter(lines, NotBlank), written, Says(proto), SameHostPort()) {
      FoldTells(lines, written, Adding(proto), Says(proto), SameHostPort());
    }
    if Fold(lines, Adding(proto)).Ok? {
      FoldCollects(lines, proto);
      IncreasingIsSorted(ports, Fold(lines, Adding(proto)).value, proto);
    }
  }

  /** Lines end at a newline, a carriage return or a comma. */
  lemma SeparatedAnyhow(lines: seq<string>, c: char)
    requires lines != [] && c in "\n\r,"
    requires forall k :: 0 <= k < |lines| ==> lines[k] != "" && '\n' !in lines[k] && '\r' !in lines[k] && ',' !in lines[k]
    ensures FieldsFunc(Join(lines, [c]), Separates) == lines
  {
    SplitJoin(lines, c, Separates);
    NonEmptyIdentity(lines);
  }

  // ---- Printing, then parsing ----

  lemma DigitsAreClean(s: string)
    requires All(s, IsDigit)
    ensures Trimmed(s) && ':' !in s && FreeOf(s, Separates)
  {
  }

  lemma NumberReadsBack(n: nat)
    requires n <= MAX_INT
    ensures TrimSpace(Itoa(n)) == Itoa(n) && Atoi(Itoa(n)) == Some(n)
    ensures ':' !in Itoa(n) && FreeOf(Itoa(n), Separates) && Trimmed(Itoa(n))
  {
    DigitsAreClean(Itoa(n));
    TrimCleanIsIdentity(Itoa(n), IsSpace);
    AtoiOfItoa(n);
  }

  lemma SplitAtColon(host: string, container: string)
    requires ':' !in host && ':' !in container
    ensures Split(host + ":" + container, ':') == [host, container]
  {
    SplitFirst(host, ':', container, IsChar(':'));
    SplitFree(container, IsChar(':'));
  }

  lemma PrintedPortReadsBack(port: ProjectPort, proto: string)
    requires Valid(port, proto)
    ensures PrintedPort(port) != "" && TrimSpace(PrintedPort(port)) == PrintedPort(port)
    ensures ReadPort(PrintedPort(port), proto) == Ok(port)
    ensures FreeOf(PrintedPort(port), Separates)
  {
    hide Itoa, Atoi, Trim, Split;
    NumberReadsBack(port.hostPort);
    NumberReadsBack(port.containerPort);
    SplitAtColon(Itoa(port.hostPort), Itoa(port.containerPort));
    TrimCleanIsIdentity(PrintedPort(port), IsSpace);
  }

  lemma AcceptedRoundTrips(ports: seq<ProjectPort>, proto: string)
    requires Accepted(ports, proto)
    ensures ParsedPorts(PrintedPorts(ports), proto) == Ok(ports)
  {
    hide PrintedPort, ReadPort, TrimSpace;
    var lines := Map(ports, PrintedPort);
    forall k | 0 <= k < |lines| ensures FreeOf(lines[k], Separates) && lines[k] != "" {
      PrintedPortReadsBack(ports[k], proto);
    }
    SplitJoin(lines, '\n', Separates);
    NonEmptyIdentity(lines);
    forall k | 0 <= k < |ports| ensures Adding(proto)(ports[..k], lines[k], k + 1) == Ok(ports[..k + 1]) {
      PrintedPortReadsBack(ports[k], proto);
      assert ports[..k + 1] == ports[..k] + [ports[k]];
    }
    FoldBuilds(ports, lines, Adding(proto));
    assert SortedBy(ports, PortLess);
    SortedIsFixed(ports, PortLess);
  }

  /** Printing and parsing gives a list of ports back exactly when it is one that the parser returns. */
  lemma PortsRoundTrip(ports: seq<ProjectPort>, proto: string)
    ensures ParsedPorts(PrintedPorts(ports), proto) == Ok(ports) <==> Accepted(ports, proto)
  {
    if Accepted(ports, proto) {
      AcceptedRoundTrips(ports, proto);
    } else if ParsedPorts(PrintedPorts(ports), proto) == Ok(ports) {
      ParserAccepts(PrintedPorts(ports), proto);
    }
  }
}
