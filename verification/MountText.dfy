/** The bind mounts of a project, as text in the project form. */
module MountText {
  import opened Text
  import opened Sequences
  import opened TextLines

  const BIND := "bind"

  datatype ProjectMount = ProjectMount(mountType: string, source: string, target: string, readOnly: bool)

  datatype MountError =
    | BadShape(line: nat)
    | BadSource(line: nat)
    | BadTarget(line: nat)
    | Reserved(target: string, line: nat)
    | Duplicate(target: string)
    | BadMode(line: nat)

  type Parsed = Result<seq<ProjectMount>, MountError>

  predicate IsReservedMountTarget(target: string) {
    TrimSpace(target) in ["/var/run/docker.sock", "/data"]
  }

  /** The mode of a line: read-write when it has none. */
  function ModeOf(fields: seq<string>): string {
    if |fields| == 3 then TrimSpace(ToLower(fields[2])) else "rw"
  }

  function AddMount(mounts: seq<ProjectMount>, line: string, number: nat): Parsed {
    if Blank(line) then Ok(mounts) else
    var fields := Fields(TrimSpace(line));
    if |fields| < 2 || |fields| > 3 then Err(BadShape(number)) else
    var source, target, mode := fields[0], fields[1], ModeOf(fields);
    if !HasPrefix(source, "/") then Err(BadSource(number))
    else if !HasPrefix(target, "/") then Err(BadTarget(number))
    else if IsReservedMountTarget(target) then Err(Reserved(target, number))
    else if exists m | m in mounts :: m.target == target then Err(Duplicate(target))
    else if mode !in ["", "rw", "readwrite", "ro", "readonly"] then Err(BadMode(number))
    else Ok(mounts + [ProjectMount(BIND, source, target, mode in ["ro", "readonly"])])
  }

  function ParsedMounts(raw: string): Parsed {
    Fold(Lines(raw), AddMount)
  }

  method ParseMountsText(raw: string) returns (result: Parsed)
    ensures result == ParsedMounts(raw)
  {
    hide Trim, Split, Fields, ToLower, IsReservedMountTarget;
    var lines := Lines(raw);
    var mounts: seq<ProjectMount> := [];
    var seenTargets: set<string> := {};
    for index := 0 to |lines|
      invariant Fold(lines[..index], AddMount) == Ok(mounts)
      invariant forall target :: target in seenTargets <==> exists m :: m in mounts && m.target == target
    {
      FoldNext(lines, index, AddMount);
      ghost var step := AddMount(mounts, lines[index], index + 1);
      if step.Err? { FoldFails(lines, index + 1, AddMount); }
      var line := TrimSpace(lines[index]);
      if line == "" {
        continue;
      }
      var parts := Fields(line);
      if |parts| < 2 || |parts| > 3 {
        return Err(BadShape(index + 1));
      }
      var source, target := parts[0], parts[1];
      var mode := "rw";
      if |parts| == 3 {
        mode := TrimSpace(ToLower(parts[2]));
      }
      if !HasPrefix(source, "/") {
        return Err(BadSource(index + 1));
      }
      if !HasPrefix(target, "/") {
        return Err(BadTarget(index + 1));
      }
      if IsReservedMountTarget(target) {
        return Err(Reserved(target, index + 1));
      }
      if target in seenTargets {
        return Err(Duplicate(target));
      }
      seenTargets := seenTargets + {target};
      var readOnly := false;
      if mode == "" || mode == "rw" || mode == "readwrite" {
      } else if mode == "ro" || mode == "readonly" {
        readOnly := true;
      } else {
        return Err(BadMode(index + 1));
      }
      mounts := mounts + [ProjectMount(BIND, source, target, readOnly)];
    }
    assert lines[..|lines|] == lines;
    return Ok(mounts);
  }

  function PrintedParts(mount: ProjectMount): seq<string> {
    [mount.source, mount.target, if mount.readOnly then "ro" else "rw"]
  }

  function PrintedMount(mount: ProjectMount): string {
    Join(PrintedParts(mount), " | ")
  }

  function PrintedMounts(mounts: seq<ProjectMount>): string {
    JoinLines(Map(mounts, PrintedMount))
  }

  method MountsText(mounts: seq<ProjectMount>) returns (text: string)
    ensures text == PrintedMounts(mounts)
  {
    if |mounts| == 0 {
      return "";
    }
    var lines: seq<string> := [];
    for n := 0 to |mounts|
      invariant lines == Map(mounts, PrintedMount)[..n]
    {
      var mode := "rw";
      if mounts[n].readOnly {
        mode := "ro";
      }
      JoinThree(mounts[n].source, mounts[n].target, mode, " | ");
      var line := mounts[n].source + " | " + (mounts[n].target + " | " + mode);
      assert line == PrintedMount(mounts[n]) == Map(mounts, PrintedMount)[n];
      lines := lines + [line];
    }
    assert lines == Map(mounts, PrintedMount);
    return Join(lines, "\n");
  }

  // ---- What the parser accepts ----

  /** An absolute path that a form line can carry. */
  predicate Path(s: string) {
    Trimmed(s) && '|' !in s && '\n' !in s && HasPrefix(s, "/")
  }

  predicate Valid(mount: ProjectMount) {
    mount.mountType == BIND && Path(mount.source) && Path(mount.target) && !IsReservedMountTarget(mount.target)
  }

  /** Valid mounts at different targets. */
  predicate Accepted(mounts: seq<ProjectMount>) {
    && (forall k | 0 <= k < |mounts| :: Valid(mounts[k]))
    && (forall i, j | 0 <= i < j < |mounts| :: mounts[i].target != mounts[j].target)
  }

  lemma LineAccepts(mounts: seq<ProjectMount>, line: string, number: nat)
    requires Accepted(mounts) && '\n' !in line && AddMount(mounts, line, number).Ok?
    ensures Accepted(AddMount(mounts, line, number).value)
  {
    hide Trim, Split, Fields, ToLower;
    TrimIsClean(line, IsSpace);
    FieldsAreClean(TrimSpace(line));
  }

  lemma NothingIsAccepted()
    ensures Accepted([])
  {
  }

  lemma {:induction false} FoldAccepts(lines: seq<string>)
    requires forall line :: line in lines ==> '\n' !in line
    requires Fold(lines, AddMount).Ok?
    ensures Accepted(Fold(lines, AddMount).value)
  {
    hide AddMount, Accepted;
    if lines == [] {
      NothingIsAccepted();
    } else {
      var n := |lines| - 1;
      FoldAccepts(lines[..n]);
      assert '\n' !in lines[n];
      LineAccepts(Fold(lines[..n], AddMount).value, lines[n], |lines|);
    }
  }

  /** Every list the parser returns: absolute host and container paths, no reserved target, no target
      twice. */
  lemma ParserAccepts(raw: string)
    requires ParsedMounts(raw).Ok?
    ensures Accepted(ParsedMounts(raw).value)
  {
    forall line | line in Lines(raw) ensures '\n' !in line { LinesHaveNoNewline(raw, line); }
    FoldAccepts(Lines(raw));
  }

  // ---- What a text says ----

  /** A line says a mount: a host path, a container path that is not reserved, and perhaps a mode. */
  predicate LineSays(line: string, m: ProjectMount) {
    var parts := Split(TrimSpace(line), '|');
    && 2 <= |parts| <= 3
    && m.mountType == "bind"
    && m.source == TrimSpace(parts[0]) && m.source != "" && m.source[0] == '/'
    && m.target == TrimSpace(parts[1]) && m.target != "" && m.target[0] == '/'
    && m.target != "/data" && m.target != "/var/run/docker.sock"
    && if m.readOnly then |parts| == 3 && ModeText(parts[2]) in ["ro", "readonly"]
       else |parts| == 2 || ModeText(parts[2]) in ["", "rw", "readwrite"]
  }

  function ModeText(part: string): string {
    TrimSpace(ToLower(TrimSpace(part)))
  }

  function Says(): (string, nat, ProjectMount) -> bool {
    (line, place, m) => LineSays(line, m)
  }

  function SameTarget(): (ProjectMount, ProjectMount) -> bool {
    (a: ProjectMount, b: ProjectMount) => a.target == b.target
  }

  lemma ReservedTargets(part: string)
    ensures IsReservedMountTarget(TrimSpace(part)) <==> TrimSpace(part) == "/data" || TrimSpace(part) == "/var/run/docker.sock"
  {
    TrimIsClean(part, IsSpace);
    TrimCleanIsIdentity(TrimSpace(part), IsSpace);
  }

  lemma AddsThis(done: seq<ProjectMount>, line: string, number: nat, before: seq<ProjectMount>, m: ProjectMount)
    requires !Blank(line)
    ensures AddMount(done, line, number) == Ok(before + [m]) <==>
              done == before && LineSays(line, m) && forall y :: y in before ==> y.target != m.target
  {
    hide Trim, Split, ToLower, IsReservedMountTarget;
    var parts := Split(TrimSpace(line), '|');
    if 2 <= |parts| <= 3 {
      ReservedTargets(parts[1]);
    }
    var step := AddMount(done, line, number);
    if step.Ok? {
      var added := ProjectMount("bind", TrimSpace(parts[0]), TrimSpace(parts[1]), |parts| == 3 && ModeText(parts[2]) in ["ro", "readonly"]);
      assert step.value == done + [added];
      if done + [added] == before + [m] {
        assert (done + [added])[..|before|] == before && (done + [added])[|before|] == m;
      }
    }
  }

  lemma AddMountReads()
    ensures Reads(AddMount, Says(), SameTarget())
  {
    hide LineSays, AddMount, Blank;
    forall done, line, n ensures SkipsBlank(AddMount, done, line, n) { AddMountSkips(done, line, n); }
    forall done, line, n, before, x: ProjectMount | !Blank(line)
      ensures AddsIt(AddMount, Says(), SameTarget(), done, line, n, before, x)
    {
      AddsThis(done, line, n, before, x);
    }
  }

  lemma AddMountSkips(done: seq<ProjectMount>, line: string, number: nat)
    ensures if Blank(line) then AddMount(done, line, number) == Ok(done) else AddMount(done, line, number) != Ok([])
  {
  }

  /** For every text: the parser returns these mounts exactly when they are what its lines say that are not
      blank, no two with the same target. */
  lemma ParsedIff(raw: string, mounts: seq<ProjectMount>)
    ensures ParsedMounts(raw) == Ok(mounts) <==> Tell(Filter(Lines(raw), NotBlank), mounts, Says(), SameTarget())
  {
    AddMountReads();
    FoldTells(Lines(raw), mounts, AddMount, Says(), SameTarget());
  }

  // ---- Printing, then parsing ----

  lemma PartsReadBack(mount: ProjectMount)
    requires Valid(mount)
    ensures forall k :: 0 <= k < 3 ==> '|' !in PrintedParts(mount)[k] && '\n' !in PrintedParts(mount)[k]
    ensures Map(PrintedParts(mount), TrimSpace) == PrintedParts(mount)
    ensures ModeOf(PrintedParts(mount)) == if mount.readOnly then "ro" else "rw"
  {
    TrimCleanIsIdentity(mount.source, IsSpace);
    TrimCleanIsIdentity(mount.target, IsSpace);
    var mode := if mount.readOnly then "ro" else "rw";
    assert IsLower(mode) && Trimmed(mode);
    LowerIdempotent(mode);
    TrimCleanIsIdentity(mode, IsSpace);
    assert PrintedParts(mount) == [mount.source, mount.target, mode];
    assert Map(PrintedParts(mount), TrimSpace) == [TrimSpace(mount.source), TrimSpace(mount.target), TrimSpace(mode)];
  }

  lemma PrintedMountReadsBack(mount: ProjectMount)
    requires Valid(mount)
    ensures '\n' !in PrintedMount(mount) && !Blank(PrintedMount(mount))
    ensures Fields(TrimSpace(PrintedMount(mount))) == PrintedParts(mount)
  {
    PartsReadBack(mount);
    JoinKeepsOut(PrintedParts(mount), " | ", '\n');
    FieldsOfTrimmed(PrintedMount(mount));
    FieldsOfJoin(PrintedParts(mount));
    assert |Fields("")| == 1;
  }

  lemma EmptyTextIsEmptyList()
    ensures ParsedMounts("") == Ok([])
  {
    assert Lines("") == [""] && Lines("")[..0] == [];
    assert Fold(Lines(""), AddMount) == AddMount([], "", 1);
  }

  lemma AcceptedRoundTrips(mounts: seq<ProjectMount>)
    requires Accepted(mounts)
    ensures ParsedMounts(PrintedMounts(mounts)) == Ok(mounts)
  {
    hide PrintedMount, TrimSpace, ModeOf, IsReservedMountTarget;
    if mounts == [] {
      EmptyTextIsEmptyList();
    } else {
      var lines := Map(mounts, PrintedMount);
      forall k | 0 <= k < |lines| ensures '\n' !in lines[k] { PrintedMountReadsBack(mounts[k]); }
      LinesOfJoin(lines);
      forall k | 0 <= k < |mounts| ensures AddMount(mounts[..k], lines[k], k + 1) == Ok(mounts[..k + 1]) {
        PrintedMountReadsBack(mounts[k]);
        PartsReadBack(mounts[k]);
        assert mounts[..k + 1] == mounts[..k] + [mounts[k]];
      }
      FoldBuilds(mounts, lines, AddMount);
    }
  }

  /** Printing and parsing gives a list of mounts back exactly when it is one that the parser returns. */
  lemma MountsRoundTrip(mounts: seq<ProjectMount>)
    ensures ParsedMounts(PrintedMounts(mounts)) == Ok(mounts) <==> Accepted(mounts)
  {
    if Accepted(mounts) {
      AcceptedRoundTrips(mounts);
    } else if ParsedMounts(PrintedMounts(mounts)) == Ok(mounts) {
      ParserAccepts(PrintedMounts(mounts));
    }
  }
}
