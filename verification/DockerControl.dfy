/** What the controller asks of Docker: how a container is described, created and inspected. Docker
    itself stores what it is given, and any of its calls may fail. */
module DockerControl {
  import opened Text
  import opened Sequences
  import opened Sorting
  import opened EnvText

  datatype Mount = Mount(source: string, target: string, readOnly: bool)

  datatype PortBinding = PortBinding(containerPort: string, hostPort: string, hostIP: string, protocol: string)

  datatype ContainerSpec = ContainerSpec(
    name: string,
    image: string,
    command: seq<string>,
    env: Env,
    labels: map<string, string>,
    network: string,
    mounts: seq<Mount>,
    publishedPorts: seq<PortBinding>,
    restartPolicy: string,
    autoRemove: bool)

  datatype NatPort = NatPort(number: string, proto: string)

  datatype HostBinding = HostBinding(ip: string, port: string)

  type PortMap = map<NatPort, seq<HostBinding>>

  /** A container as Docker stores it. */
  datatype Container = Container(
    id: string,
    imageId: string,
    image: string,
    command: seq<string>,
    env: seq<string>,
    labels: map<string, string>,
    binds: seq<string>,
    ports: PortMap,
    networks: set<string>,
    restartPolicy: string,
    autoRemove: bool,
    running: bool)

  datatype ContainerInspect = ContainerInspect(
    id: string,
    name: string,
    image: string,
    imageId: string,
    command: seq<string>,
    running: bool,
    networks: seq<string>,
    labels: map<string, string>,
    env: seq<string>,
    mounts: seq<Mount>,
    publishedPorts: seq<PortBinding>,
    restartPolicy: string)

  // ---- Environment ----

  /** The entries of a map, by key. */
  ghost predicate IsEnvSlice(entries: seq<string>, values: Env) {
    exists keys :: InOrder(keys, values.Keys) && entries == EnvLines(values, keys)
  }

  method EnvSlice(values: Env) returns (entries: seq<string>)
    ensures IsEnvSlice(entries, values)
  {
    var keys := SortedNames(values.Keys);
    InOrderMembers(keys, values.Keys);
    entries := [];
    for n := 0 to |keys|
      invariant entries == EnvLines(values, keys)[..n]
    {
      assert keys[n] in keys;
      entries := entries + [keys[n] + "=" + values[keys[n]]];
    }
    assert entries == EnvLines(values, keys);
  }

  // ---- Bind mounts ----

  function BindOf(mount: Mount): string {
    mount.source + ":" + mount.target + (if mount.readOnly then ":ro" else "")
  }

  function BindsOf(mounts: seq<Mount>): seq<string> {
    Sort(Map(mounts, BindOf), StrLess)
  }

  method BindMounts(mounts: seq<Mount>) returns (binds: seq<string>)
    ensures binds == BindsOf(mounts)
  {
    binds := [];
    for n := 0 to |mounts|
      invariant binds == Map(mounts, BindOf)[..n]
    {
      var value := mounts[n].source + ":" + mounts[n].target;
      if mounts[n].readOnly {
        value := value + ":ro";
      }
      assert BindOf(mounts[n]) == value == Map(mounts, BindOf)[n];
      binds := binds + [value];
    }
    assert binds == Map(mounts, BindOf);
    binds := Sort(binds, StrLess);
  }

  /** At most three parts, cut at the first two colons. */
  function CutAtColons(value: string): (parts: seq<string>)
    ensures 1 <= |parts| <= 3
  {
    var i := FirstIndex(value, ':');
    if i == |value| then [value]
    else
      var rest := value[i + 1..];
      var j := FirstIndex(rest, ':');
      if j == |rest| then [value[..i], rest] else [value[..i], rest[..j], rest[j + 1..]]
  }

  predicate SaysReadOnly(option: string) {
    EqualFold(TrimSpace(option), "ro")
  }

  function ReadBind(value: string): Option<Mount> {
    var parts := CutAtColons(value);
    if |parts| < 2 then None
    else Some(Mount(parts[0], parts[1], |parts| == 3 && exists o | o in Split(parts[2], ',') :: SaysReadOnly(o)))
  }

  function ReadBinds(values: seq<string>): seq<Mount> {
    if values == [] then []
    else
      var front, mount := ReadBinds(values[..|values| - 1]), ReadBind(values[|values| - 1]);
      if mount.None? then front else front + [mount.value]
  }

  predicate MountLess(a: Mount, b: Mount) {
    if a.source != b.source then StrLess(a.source, b.source) else StrLess(a.target, b.target)
  }

  function MountsOf(binds: seq<string>): seq<Mount> {
    Sort(ReadBinds(binds), MountLess)
  }

  method ReadOptions(options: seq<string>) returns (readOnly: bool)
    ensures readOnly <==> exists o | o in options :: SaysReadOnly(o)
  {
    readOnly := false;
    var k := 0;
    while k < |options| && !readOnly
      invariant 0 <= k <= |options|
      invariant readOnly <==> exists o | o in options[..k] :: SaysReadOnly(o)
    {
      assert options[..k + 1] == options[..k] + [options[k]];
      readOnly := EqualFold(TrimSpace(options[k]), "ro");
      assert readOnly == SaysReadOnly(options[k]) && options[k] in options[..k + 1];
      k := k + 1;
    }
    assert options[..|options|] == options;
    if readOnly {
      var o :| o in options[..k] && SaysReadOnly(o);
      assert o in options;
    }
  }

  method BindMountsFromInspect(values: seq<string>) returns (mounts: seq<Mount>)
    ensures mounts == MountsOf(values)
  {
    hide CutAtColons, SaysReadOnly, Split;
    mounts := [];
    for n := 0 to |values|
      invariant mounts == ReadBinds(values[..n])
    {
      assert values[..n + 1][..n] == values[..n];
      var parts := CutAtColons(values[n]);
      if |parts| < 2 {
        continue;
      }
      var readOnly := false;
      if |parts| == 3 {
        readOnly := ReadOptions(Split(parts[2], ','));
      }
      mounts := mounts + [Mount(parts[0], parts[1], readOnly)];
    }
    assert values[..|values|] == values;
    mounts := Sort(mounts, MountLess);
  }

  // ---- Published ports ----

  function ProtocolOrDefault(protocol: string): string {
    if Blank(protocol) then "tcp" else ToLower(protocol)
  }

  function PortOf(binding: PortBinding): NatPort {
    NatPort(binding.containerPort, ProtocolOrDefault(binding.protocol))
  }

  function HostOf(binding: PortBinding): HostBinding {
    HostBinding(binding.hostIP, binding.hostPort)
  }

  function BoundTo(ports: PortMap, port: NatPort): seq<HostBinding> {
    if port in ports then ports[port] else []
  }

  function PortMapOf(bindings: seq<PortBinding>): PortMap {
    if bindings == [] then map[]
    else
      var front, last := PortMapOf(bindings[..|bindings| - 1]), bindings[|bindings| - 1];
      front[PortOf(last) := BoundTo(front, PortOf(last)) + [HostOf(last)]]
  }

  method PortBindings(list: seq<PortBinding>) returns (ports: PortMap)
    ensures ports == PortMapOf(list)
  {
    ports := map[];
    for n := 0 to |list|
      invariant ports == PortMapOf(list[..n])
    {
      assert list[..n + 1][..n] == list[..n];
      var port := NatPort(list[n].containerPort, ProtocolOrDefault(list[n].protocol));
      ports := ports[port := BoundTo(ports, port) + [HostBinding(list[n].hostIP, list[n].hostPort)]];
    }
    assert list[..|list|] == list;
  }

  /** How often a map publishes a binding. */
  function Published(ports: PortMap, b: PortBinding): nat {
    multiset(BoundTo(ports, NatPort(b.containerPort, b.protocol)))[HostOf(b)]
  }

  /** The bindings are those of the map, in some order. */
  ghost predicate Lists(bindings: seq<PortBinding>, ports: PortMap) {
    forall b :: multiset(bindings)[b] == Published(ports, b)
  }

  predicate BindingLess(a: PortBinding, b: PortBinding) {
    if a.protocol != b.protocol then StrLess(a.protocol, b.protocol)
    else if a.hostPort != b.hostPort then StrLess(a.hostPort, b.hostPort)
    else StrLess(a.containerPort, b.containerPort)
  }

  function BindingAt(port: NatPort, host: HostBinding): PortBinding {
    PortBinding(port.number, host.port, host.ip, port.proto)
  }

  /** One port's host bindings, added at the end. */
  method AddExposed(before: seq<PortBinding>, port: NatPort, exposed: seq<HostBinding>) returns (bindings: seq<PortBinding>)
    ensures forall b ::
      multiset(bindings)[b] ==
      multiset(before)[b] + (if NatPort(b.containerPort, b.protocol) == port then multiset(exposed)[HostOf(b)] else 0)
  {
    bindings := before;
    for n := 0 to |exposed|
      invariant forall b ::
        multiset(bindings)[b] ==
        multiset(before)[b] + (if NatPort(b.containerPort, b.protocol) == port then multiset(exposed[..n])[HostOf(b)] else 0)
    {
      assert exposed[..n + 1] == exposed[..n] + [exposed[n]];
      bindings := bindings + [BindingAt(port, exposed[n])];
    }
    assert exposed[..|exposed|] == exposed;
  }

  method PublishedPortsFromInspect(ports: PortMap) returns (bindings: seq<PortBinding>)
    ensures Lists(bindings, ports)
  {
    hide StrLess;
    bindings := [];
    var todo := ports.Keys;
    while todo != {}
      invariant todo <= ports.Keys
      invariant forall b :: multiset(bindings)[b] == if NatPort(b.containerPort, b.protocol) in todo then 0 else Published(ports, b)
      decreases todo
    {
      var port :| port in todo;
      bindings := AddExposed(bindings, port, ports[port]);
      todo := todo - {port};
    }
    SortPermutes(bindings, BindingLess);
    bindings := Sort(bindings, BindingLess);
  }

  // ---- Restart policy ----

  function RestartPolicyName(policy: string): string {
    if TrimSpace(policy) in ["always", "no", "on-failure"] then policy else "unless-stopped"
  }

  // ---- What survives being written and read again ----

  predicate KeysAreNames(values: Env) {
    forall key | key in values :: '=' !in key
  }

  /** The entries read back as a map, the last one winning; an entry without "=" says nothing. */
  function EnvMap(entries: seq<string>): Env {
    if entries == [] then map[]
    else
      var front, last := EnvMap(entries[..|entries| - 1]), entries[|entries| - 1];
      var i := FirstIndex(last, '=');
      if i < |last| then front[last[..i] := last[i + 1..]] else front
  }

  lemma {:induction false} EnvMapKeys(entries: seq<string>)
    ensures KeysAreNames(EnvMap(entries))
  {
    if entries != [] {
      EnvMapKeys(entries[..|entries| - 1]);
    }
  }

  lemma EntryReads(entries: seq<string>, values: Env, key: string)
    requires key in values && '=' !in key
    ensures EnvMap(entries + [EnvLine(values, key)]) == EnvMap(entries)[key := values[key]]
  {
    var last := EnvLine(values, key);
    assert last == key + "=" + values[key];
    FirstIndexAfter(key, '=', values[key]);
    hide FirstIndex, EnvLine;
    assert (entries + [last])[..|entries|] == entries;
  }

  lemma {:induction false} EntriesBuild(values: Env, keys: seq<string>, n: nat)
    requires KeysAreNames(values) && n <= |keys| && forall k :: k in keys ==> k in values
    ensures EnvMap(EnvLines(values, keys)[..n]) == map key | key in values && key in keys[..n] :: values[key]
  {
    hide FirstIndex, EnvLine;
    if n > 0 {
      hide EnvMap;
      var entries, key := EnvLines(values, keys), keys[n - 1];
      EntriesBuild(values, keys, n - 1);
      assert key in keys;
      assert entries[..n] == entries[..n - 1] + [EnvLine(values, key)];
      EntryReads(entries[..n - 1], values, key);
      assert keys[..n] == keys[..n - 1] + [key];
    }
  }

  lemma NamedEnvRoundTrips(entries: seq<string>, values: Env)
    requires IsEnvSlice(entries, values) && KeysAreNames(values)
    ensures EnvMap(entries) == values
  {
    hide EnvMap;
    hide EnvLine;
    var keys :| InOrder(keys, values.Keys) && entries == EnvLines(values, keys);
    InOrderMembers(keys, values.Keys);
    EntriesBuild(values, keys, |keys|);
    assert entries[..|keys|] == entries && keys[..|keys|] == keys;
  }

  /** A map comes back from its entries exactly when no key contains "=". */
  lemma EnvRoundTrips(entries: seq<string>, values: Env)
    requires IsEnvSlice(entries, values)
    ensures EnvMap(entries) == values <==> KeysAreNames(values)
  {
    hide EnvMap, IsEnvSlice;
    EnvMapKeys(entries);
    if KeysAreNames(values) {
      NamedEnvRoundTrips(entries, values);
    }
  }

  predicate PathsAreNames(mounts: seq<Mount>) {
    forall m | m in mounts :: ':' !in m.source && ':' !in m.target
  }

  lemma CutTwo(source: string, target: string)
    requires ':' !in source && ':' !in target
    ensures CutAtColons(source + ":" + target) == [source, target]
  {
    FirstIndexAfter(source, ':', target);
    assert FirstIndex(target, ':') == |target|;
  }

  lemma CutThree(source: string, target: string, options: string)
    requires ':' !in source && ':' !in target
    ensures CutAtColons(source + ":" + (target + ":" + options)) == [source, target, options]
  {
    FirstIndexAfter(source, ':', target + ":" + options);
    FirstIndexAfter(target, ':', options);
  }

  lemma ReadOnlyOption()
    ensures exists o | o in Split("ro", ',') :: SaysReadOnly(o)
  {
    SplitFree("ro", IsChar(','));
    TrimCleanIsIdentity("ro", IsSpace);
    assert "ro" in Split("ro", ',') && SaysReadOnly("ro");
  }

  lemma BindReadsBack(mount: Mount)
    requires ':' !in mount.source && ':' !in mount.target
    ensures ReadBind(BindOf(mount)) == Some(mount)
  {
    hide CutAtColons, SaysReadOnly, Split;
    if mount.readOnly {
      assert BindOf(mount) == mount.source + ":" + (mount.target + ":" + "ro");
      CutThree(mount.source, mount.target, "ro");
      ReadOnlyOption();
    } else {
      assert BindOf(mount) == mount.source + ":" + mount.target;
      CutTwo(mount.source, mount.target);
    }
  }

  lemma OptionsAreSplit(options: seq<string>)
    requires options != [] && forall k :: 0 <= k < |options| ==> ',' !in options[k]
    ensures Split(Join(options, ","), ',') == options
  {
    forall k | 0 <= k < |options| ensures FreeOf(options[k], IsChar(',')) {
    }
    SplitJoin(options, ',', IsChar(','));
    assert [','] == ",";
  }

  /** A mount is read as read-only exactly when one of its options says so, whatever its case and wherever
      it stands. */
  lemma OptionsRead(source: string, target: string, options: seq<string>)
    requires ':' !in source && ':' !in target && options != []
    requires forall k :: 0 <= k < |options| ==> ',' !in options[k]
    ensures ReadBind(source + ":" + (target + ":" + Join(options, ","))) ==
            Some(Mount(source, target, exists o :: o in options && TrimSpace(o) in ["ro", "Ro", "rO", "RO"]))
  {
    hide CutAtColons, Split, Join, EqualFold, Trim;
    CutThree(source, target, Join(options, ","));
    OptionsAreSplit(options);
    forall o: string ensures SaysReadOnly(o) <==> TrimSpace(o) in ["ro", "Ro", "rO", "RO"] {
      FoldsToRo(TrimSpace(o));
    }
  }

  lemma FoldsToRo(s: string)
    ensures EqualFold(s, "ro") <==> s in ["ro", "Ro", "rO", "RO"]
  {
    var low := ToLower("ro");
    assert low[0] == 'r' && low[1] == 'o';
    if EqualFold(s, "ro") {
      assert |s| == |ToLower(s)| == |low| == 2;
      assert LowerChar(s[0]) == ToLower(s)[0] == 'r' && LowerChar(s[1]) == ToLower(s)[1] == 'o';
      assert s == [s[0], s[1]];
    }
    if s in ["ro", "Ro", "rO", "RO"] {
      assert ToLower(s) == low;
    }
  }

  function ReadAnyway(value: string): Mount {
    if ReadBind(value).Some? then ReadBind(value).value else Mount("", "", false)
  }

  lemma {:induction false} ReadableBinds(values: seq<string>)
    requires forall v :: v in values ==> ReadBind(v).Some?
    ensures ReadBinds(values) == Map(values, ReadAnyway)
  {
    hide ReadBind;
    if values != [] {
      assert values[|values| - 1] in values;
      ReadableBinds(values[..|values| - 1]);
      MapFront(values, ReadAnyway);
    }
  }

  lemma {:induction false} ReadBindsAreNames(values: seq<string>)
    ensures PathsAreNames(ReadBinds(values))
  {
    if values != [] {
      ReadBindsAreNames(values[..|values| - 1]);
    }
  }

  lemma NamedBindsRead(mounts: seq<Mount>)
    requires PathsAreNames(mounts)
    ensures multiset(ReadBinds(BindsOf(mounts))) == multiset(mounts)
  {
    hide ReadBind, BindOf, StrLess, ReadBinds, Sort;
    var strings, binds := Map(mounts, BindOf), BindsOf(mounts);
    SortPermutes(strings, StrLess);
    MultisetMembers(binds, strings);
    forall k | 0 <= k < |mounts| ensures ReadBind(strings[k]) == Some(mounts[k]) {
      assert mounts[k] in mounts;
      BindReadsBack(mounts[k]);
    }
    ReadableBinds(binds);
    MapPermutes(binds, strings, ReadAnyway);
    assert Map(strings, ReadAnyway) == mounts;
  }

  /** Mounts come back from their bind strings, in some order, exactly when no path contains a colon. */
  lemma BindsRoundTrip(mounts: seq<Mount>)
    ensures multiset(MountsOf(BindsOf(mounts))) == multiset(mounts) <==> PathsAreNames(mounts)
  {
    hide BindsOf, ReadBinds, Sort, MountLess;
    var binds := BindsOf(mounts);
    SortPermutes(ReadBinds(binds), MountLess);
    if PathsAreNames(mounts) {
      NamedBindsRead(mounts);
    } else if multiset(MountsOf(binds)) == multiset(mounts) {
      ReadBindsAreNames(binds);
      MultisetMembers(ReadBinds(binds), mounts);
    }
  }

  /** Mounts that were read from bind strings always come back. */
  lemma ReadMountsRoundTrip(binds: seq<string>)
    ensures multiset(MountsOf(BindsOf(MountsOf(binds)))) == multiset(MountsOf(binds))
  {
    hide ReadBind, BindsOf;
    var mounts := MountsOf(binds);
    ReadBindsAreNames(binds);
    SortPermutes(ReadBinds(binds), MountLess);
    MultisetMembers(mounts, ReadBinds(binds));
    BindsRoundTrip(mounts);
  }

  function Normalized(b: PortBinding): PortBinding {
    b.(protocol := ProtocolOrDefault(b.protocol))
  }

  lemma {:induction false} PortMapPublishes(bindings: seq<PortBinding>, b: PortBinding)
    ensures Published(PortMapOf(bindings), b) == multiset(Map(bindings, Normalized))[b]
  {
    hide ProtocolOrDefault;
    if bindings != [] {
      var n := |bindings| - 1;
      PortMapPublishes(bindings[..n], b);
      MapFront(bindings, Normalized);
      assert Map(bindings, Normalized) == Map(bindings[..n], Normalized) + [Normalized(bindings[n])];
    }
  }

  lemma BindingsComeBack(bindings: seq<PortBinding>, listed: seq<PortBinding>)
    requires Lists(listed, PortMapOf(bindings))
    ensures multiset(listed) == multiset(bindings) <==> forall b | b in bindings :: ProtocolOrDefault(b.protocol) == b.protocol
  {
    hide ProtocolOrDefault, Published;
    forall b ensures multiset(listed)[b] == multiset(Map(bindings, Normalized))[b] {
      PortMapPublishes(bindings, b);
    }
    assert multiset(listed) == multiset(Map(bindings, Normalized));
    if forall b | b in bindings :: ProtocolOrDefault(b.protocol) == b.protocol {
      forall k | 0 <= k < |bindings| ensures Normalized(bindings[k]) == bindings[k] {
        assert bindings[k] in bindings;
      }
      assert Map(bindings, Normalized) == bindings;
    } else if multiset(listed) == multiset(bindings) {
      MultisetMembers(bindings, Map(bindings, Normalized));
      forall b | b in bindings ensures ProtocolOrDefault(b.protocol) == b.protocol {
        assert b in Map(bindings, Normalized);
        var k :| 0 <= k < |bindings| && Map(bindings, Normalized)[k] == b;
        assert b == Normalized(bindings[k]) && b.protocol == ProtocolOrDefault(bindings[k].protocol);
        ProtocolTwice(bindings[k].protocol);
      }
    }
  }

  lemma ProtocolKept(protocol: string)
    ensures ProtocolOrDefault(protocol) == protocol <==> !Blank(protocol) && IsLower(protocol)
  {
    LowerIdempotent(protocol);
    if ProtocolOrDefault(protocol) == protocol {
      TrimCleanIsIdentity("tcp", IsSpace);
      assert !Blank("tcp");
    }
  }

  /** Bindings come back from the port map, in some order, exactly when their protocols are lower case
      and not blank. */
  lemma PortsRoundTrip(bindings: seq<PortBinding>, listed: seq<PortBinding>)
    requires Lists(listed, PortMapOf(bindings))
    ensures multiset(listed) == multiset(bindings) <==> forall b | b in bindings :: !Blank(b.protocol) && IsLower(b.protocol)
  {
    BindingsComeBack(bindings, listed);
    hide ProtocolOrDefault, Lists, PortMapOf, Blank, IsLower;
    forall b: PortBinding ensures ProtocolOrDefault(b.protocol) == b.protocol <==> !Blank(b.protocol) && IsLower(b.protocol) {
      ProtocolKept(b.protocol);
    }
  }

  /** A single binding is listed in lower case, and as "tcp" when it names no protocol. */
  lemma OneBindingListed(b: PortBinding, listed: seq<PortBinding>)
    requires Lists(listed, PortMapOf([b]))
    ensures listed == [b.(protocol := if Blank(b.protocol) then "tcp" else ToLower(b.protocol))]
  {
    hide Published, Blank, ToLower, PortMapOf;
    forall c ensures multiset(listed)[c] == multiset([Normalized(b)])[c] {
      PortMapPublishes([b], c);
      assert Map([b], Normalized) == [Normalized(b)];
    }
    assert multiset(listed) == multiset([Normalized(b)]);
    assert |listed| == |multiset(listed)| == 1;
    assert listed[0] in multiset(listed);
  }

  lemma ProtocolTwice(protocol: string)
    ensures ProtocolOrDefault(ProtocolOrDefault(protocol)) == ProtocolOrDefault(protocol)
  {
    LowerIdempotent(protocol);
    if Blank(protocol) {
      assert IsLower("tcp");
      LowerIdempotent("tcp");
    } else if Blank(ToLower(protocol)) {
      BlankWhenLowered(protocol);
    }
  }

  lemma BlankWhenLowered(s: string)
    requires Blank(ToLower(s))
    ensures Blank(s)
  {
    BlankIsAllSpaces(ToLower(s));
    forall i | 0 <= i < |s| ensures IsSpace(s[i]) {
      assert IsSpace(ToLower(s)[i]);
    }
    TrimPadded(s, "", "", IsSpace);
    assert s + "" + "" == s;
  }
}
