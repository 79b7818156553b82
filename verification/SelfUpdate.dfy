/** How the controller replaces its own container, against a Docker that stores what it is given and
    may fail at every call. */
module SelfUpdate {
  import opened Text
  import opened Sequences
  import opened EnvText
  import opened DockerControl

  datatype DockerError =
    | NoName | NoImage | NotFound
    | NetworkFailed | InspectFailed | PullFailed | StopFailed | RemoveFailed | CreateFailed | StartFailed

  /** Docker names protocols in lower case. */
  predicate Canonical(c: Container) {
    forall port | port in c.ports :: ProtocolOrDefault(port.proto) == port.proto
  }

  /** What an inspection shows of the container of some name. */
  ghost predicate Shows(i: ContainerInspect, name: string, c: Container) {
    && i.id == c.id && i.name == name && i.imageId == c.imageId
    && i.image == c.image && i.command == c.command && i.running == c.running
    && InOrder(i.networks, c.networks)
    && i.labels == c.labels && i.env == c.env
    && i.mounts == MountsOf(c.binds)
    && Lists(i.publishedPorts, c.ports)
    && i.restartPolicy == c.restartPolicy
  }

  /** A container that was created from a description. */
  ghost predicate Built(c: Container, spec: ContainerSpec) {
    && c.image == spec.image && c.command == spec.command && c.labels == spec.labels
    && IsEnvSlice(c.env, spec.env)
    && c.binds == BindsOf(spec.mounts)
    && c.ports == PortMapOf(spec.publishedPorts)
    && c.networks == (if spec.network == "" then {} else {spec.network})
    && c.restartPolicy == RestartPolicyName(spec.restartPolicy)
    && c.autoRemove == spec.autoRemove
  }

  /** What a failed replacement may leave under a name: the old container, perhaps stopped, none, or the
      new one, perhaps not started. */
  ghost predicate Leftover(before: Option<Container>, after: Option<Container>, spec: ContainerSpec) {
    || after == before
    || (before.Some? && after == Some(before.value.(running := false)))
    || after.None?
    || Built(after.value, spec)
  }

  function Lookup(containers: map<string, Container>, name: string): Option<Container> {
    if name in containers then Some(containers[name]) else None
  }

  class Docker {
    const answers: nat -> bool              // whether Docker does what it is asked, call after call
    var asked: nat
    var containers: map<string, Container>
    var networks: set<string>

    ghost predicate Valid()
      reads this
    {
      forall name :: name in containers ==> Canonical(containers[name])
    }

    constructor (answers: nat -> bool)
      ensures Valid() && containers == map[] && networks == {} && this.answers == answers && asked == 0
    {
      this.answers, asked, containers, networks := answers, 0, map[], {};
    }

    /** Docker did all that it was asked between two moments. */
    ghost predicate AllWell(from: nat, to: nat) {
      from <= to && forall k :: from <= k < to ==> answers(k)
    }

    /** All but the last. */
    ghost predicate LastFailed(from: nat, to: nat) {
      from < to && AllWell(from, to - 1) && !answers(to - 1)
    }

    method Ask() returns (ok: bool)
      modifies this`asked
      ensures ok == answers(old(asked)) && asked == old(asked) + 1
    {
      ok := answers(asked);
      asked := asked + 1;
    }

    method EnsureNetwork(name: string) returns (ok: bool)
      modifies this`networks, this`asked
      ensures networks == if ok then old(networks) + {name} else old(networks)
      ensures if ok then AllWell(old(asked), asked) else LastFailed(old(asked), asked)
    {
      var listed := Ask();
      if !listed {
        return false;
      }
      if name in networks {
        return true;
      }
      ok := Ask();
      if ok {
        networks := networks + {name};
      }
    }

    method PullImage(image: string) returns (ok: bool)
      modifies this`asked
      ensures if ok then AllWell(old(asked), asked) else LastFailed(old(asked), asked)
    {
      ok := Ask();
    }

    method InspectContainer(name: string) returns (result: Result<ContainerInspect, DockerError>)
      modifies this`asked
      ensures result.Ok? ==> name in containers && Shows(result.value, name, containers[name]) && AllWell(old(asked), asked)
      ensures result.Err? ==>
                || (result.error.InspectFailed? && LastFailed(old(asked), asked))
                || (result.error.NotFound? && name !in containers && AllWell(old(asked), asked))
    {
      var reached := Ask();
      if !reached {
        return Err(InspectFailed);
      }
      if name !in containers {
        return Err(NotFound);
      }
      var c := containers[name];
      var names := SortedNames(c.networks);
      var mounts := BindMountsFromInspect(c.binds);
      var ports := PublishedPortsFromInspect(c.ports);
      return Ok(ContainerInspect(c.id, name, c.image, c.imageId, c.command, c.running, names, c.labels, c.env, mounts, ports, c.restartPolicy));
    }

    /** Stop and remove what has the name, if anything has. */
    method Clear(name: string) returns (error: Option<DockerError>)
      requires Valid()
      modifies this`containers, this`asked
      ensures Valid() && containers - {name} == old(containers) - {name}
      ensures error.None? ==> name !in containers && AllWell(old(asked), asked)
      ensures error.Some? ==> LastFailed(old(asked), asked)
      ensures error.Some? ==>
                var before, after := Lookup(old(containers), name), Lookup(containers, name);
                after == before || (before.Some? && after == Some(before.value.(running := false)))
    {
      hide Shows, Canonical;
      StoppedIsCanonical(name);
      var found := InspectContainer(name);
      if found.Err? {
        return if found.error.NotFound? then None else Some(found.error);
      }
      var stopped := Ask();
      if !stopped {
        return Some(StopFailed);
      }
      containers := containers[name := containers[name].(running := false)];
      var removed := Ask();
      if !removed {
        return Some(RemoveFailed);
      }
      containers := containers - {name};
      return None;
    }

    lemma StoppedIsCanonical(name: string)
      ensures name in containers ==> Canonical(containers[name].(running := false)) == Canonical(containers[name])
    {
    }

    method CreateContainer(spec: ContainerSpec) returns (ok: bool)
      requires Valid()
      modifies this`containers, this`asked
      ensures Valid() && containers - {spec.name} == old(containers) - {spec.name}
      ensures ok ==> spec.name in containers && Built(containers[spec.name], spec) && AllWell(old(asked), asked)
      ensures !ok ==> containers == old(containers) && LastFailed(old(asked), asked)
    {
      hide Canonical, IsEnvSlice, BindsOf, PortMapOf, ProtocolOrDefault;
      var env := EnvSlice(spec.env);
      var binds := BindMounts(spec.mounts);
      var ports := PortBindings(spec.publishedPorts);
      var attached := if spec.network == "" then {} else {spec.network};
      var id: string, imageId: string := *, *;
      ok := Ask();
      if ok {
        var made := Container(id, imageId, spec.image, spec.command, env, spec.labels, binds, ports, attached,
                              RestartPolicyName(spec.restartPolicy), spec.autoRemove, false);
        MadeIsCanonical(made, spec.publishedPorts);
        containers := containers[spec.name := made];
      }
    }

    method RecreateContainer(spec: ContainerSpec) returns (result: Result<ContainerInspect, DockerError>)
      requires Valid()
      modifies this
      ensures Valid() && containers - {spec.name} == old(containers) - {spec.name}
      ensures result.Ok? ==>
                && spec.name in containers && Built(containers[spec.name], spec) && containers[spec.name].running
                && Shows(result.value, spec.name, containers[spec.name])
                && (spec.network != "" ==> spec.network in networks)
      ensures result.Ok? ==> AllWell(old(asked), asked) && !Blank(spec.name) && !Blank(spec.image)
      ensures result.Err? ==> LastFailed(old(asked), asked) || (asked == old(asked) && (Blank(spec.name) || Blank(spec.image)))
      ensures result.Err? ==> Leftover(Lookup(old(containers), spec.name), Lookup(containers, spec.name), spec)
    {
      hide Shows, Built, Canonical, TrimSpace;
      if TrimSpace(spec.name) == "" {
        return Err(NoName);
      }
      if TrimSpace(spec.image) == "" {
        return Err(NoImage);
      }
      if spec.network != "" {
        var ensured := EnsureNetwork(spec.network);
        if !ensured {
          return Err(NetworkFailed);
        }
      }
      var failure := Clear(spec.name);
      if failure.Some? {
        return Err(failure.value);
      }
      var created := CreateContainer(spec);
      if !created {
        return Err(CreateFailed);
      }
      var started := Ask();
      if !started {
        return Err(StartFailed);
      }
      StartedIsBuilt(containers[spec.name], spec);
      containers := containers[spec.name := containers[spec.name].(running := true)];
      result := InspectContainer(spec.name);
    }
  }

  /** Starting a container changes nothing else about it. */
  lemma StartedIsBuilt(c: Container, spec: ContainerSpec)
    ensures Built(c.(running := true), spec) == Built(c, spec)
    ensures Canonical(c.(running := true)) == Canonical(c)
  {
    hide ProtocolOrDefault, BindsOf, PortMapOf, IsEnvSlice, RestartPolicyName;
  }

  lemma MadeIsCanonical(c: Container, bindings: seq<PortBinding>)
    requires c.ports == PortMapOf(bindings)
    ensures Canonical(c)
  {
    hide ProtocolOrDefault;
    PortMapIsCanonical(bindings);
  }

  lemma {:induction false} PortMapIsCanonical(bindings: seq<PortBinding>)
    ensures forall port | port in PortMapOf(bindings) :: ProtocolOrDefault(port.proto) == port.proto
  {
    if bindings != [] {
      PortMapIsCanonical(bindings[..|bindings| - 1]);
      ProtocolTwice(bindings[|bindings| - 1].protocol);
    }
  }

  const IMAGE_VARIABLE := "CADDYTOWER_IMAGE"

  /** What the controller asks for, from what it sees of its container. */
  function UpdateSpec(name: string, image: string, seen: ContainerInspect): ContainerSpec {
    ContainerSpec(name, image, seen.command, EnvMap(seen.env)[IMAGE_VARIABLE := image], seen.labels,
                  if seen.networks != [] then seen.networks[0] else "", seen.mounts, seen.publishedPorts, seen.restartPolicy, false)
  }

  /** The first of some names. */
  predicate FirstOf(name: string, names: set<string>) {
    name in names && forall other | other in names :: !StrLess(other, name)
  }

  /** The new container against the old one: another image, known to its environment, and only the
      first network; everything else that an inspection shows is kept, but for the ids that Docker gives,
      and mounts and ports in some order. */
  ghost predicate Updated(before: Container, after: Container, image: string) {
    && after.image == image
    && EnvMap(after.env) == EnvMap(before.env)["CADDYTOWER_IMAGE" := image]
    && after.command == before.command && after.labels == before.labels
    && multiset(MountsOf(after.binds)) == multiset(MountsOf(before.binds))
    && (forall b :: Published(after.ports, b) == Published(before.ports, b))
    && after.restartPolicy == (if TrimSpace(before.restartPolicy) in ["always", "no", "on-failure"] then before.restartPolicy else "unless-stopped")
    && (before.networks == {} ==> after.networks == {})
    && (before.networks != {} ==> exists name :: FirstOf(name, before.networks) && after.networks == if name == "" then {} else {name})
  }

  /** What a failed update may leave: the old container, perhaps stopped, none, or the updated one. */
  ghost predicate UpdateLeft(before: Option<Container>, after: Option<Container>, image: string) {
    || after == before
    || (before.Some? && after == Some(before.value.(running := false)))
    || (before.Some? && after.None?)
    || (before.Some? && Updated(before.value, after.value, image))
  }

  method SelfUpdateController(docker: Docker, containerName: string, targetImage: string) returns (error: Option<DockerError>)
    requires docker.Valid()
    modifies docker
    ensures docker.Valid()
    ensures var name := TrimSpace(containerName);
            && docker.containers - {name} == old(docker.containers) - {name}
            && (error.None? ==>
                  && name in old(docker.containers) && name in docker.containers && docker.containers[name].running
                  && Updated(old(docker.containers[name]), docker.containers[name], TrimSpace(targetImage)))
            && (error.None? ==> docker.AllWell(old(docker.asked), docker.asked))
            && (error.Some? ==>
                  || docker.LastFailed(old(docker.asked), docker.asked)
                  || name == "" || TrimSpace(targetImage) == "" || name !in old(docker.containers))
            && (error.Some? ==>
                  UpdateLeft(Lookup(old(docker.containers), name), Lookup(docker.containers, name), TrimSpace(targetImage)))
  {
    hide TrimSpace, Shows, Built, Canonical, EnvMap, Updated;
    var name, image := TrimSpace(containerName), TrimSpace(targetImage);
    TrimTwice(containerName);
    TrimTwice(targetImage);
    if name == "" {
      return Some(NoName);
    }
    if image == "" {
      return Some(NoImage);
    }
    var seen := docker.InspectContainer(name);
    if seen.Err? {
      return Some(seen.error);
    }
    var pulled := docker.PullImage(image);
    if !pulled {
      return Some(PullFailed);
    }
    var env := ReadEnv(seen.value.env);
    env := env[IMAGE_VARIABLE := image];
    var network := "";
    if |seen.value.networks| > 0 {
      network := seen.value.networks[0];
    }
    ghost var before := docker.containers[name];
    var result := docker.RecreateContainer(
      ContainerSpec(name, image, seen.value.command, env, seen.value.labels, network,
                    seen.value.mounts, seen.value.publishedPorts, seen.value.restartPolicy, false));
    if result.Err? {
      if name in docker.containers && Built(docker.containers[name], UpdateSpec(name, image, seen.value)) {
        BuiltIsUpdated(before, docker.containers[name], seen.value, name, image);
      }
      return Some(result.error);
    }
    BuiltIsUpdated(before, docker.containers[name], seen.value, name, image);
    return None;
  }

  lemma TrimTwice(value: string)
    ensures TrimSpace(TrimSpace(value)) == TrimSpace(value)
  {
    TrimIsClean(value, IsSpace);
    TrimCleanIsIdentity(TrimSpace(value), IsSpace);
  }

  method ReadEnv(entries: seq<string>) returns (values: Env)
    ensures values == EnvMap(entries)
  {
    values := map[];
    for n := 0 to |entries|
      invariant values == EnvMap(entries[..n])
    {
      assert entries[..n + 1][..n] == entries[..n];
      var at := FirstIndex(entries[n], '=');
      if at == |entries[n]| {
        continue;
      }
      values := values[entries[n][..at] := entries[n][at + 1..]];
    }
    assert entries[..|entries|] == entries;
  }

  // ---- Why the rest is kept ----

  lemma EnvIsKept(before: Container, after: Container, image: string)
    requires IsEnvSlice(after.env, EnvMap(before.env)[IMAGE_VARIABLE := image])
    ensures EnvMap(after.env) == EnvMap(before.env)[IMAGE_VARIABLE := image]
  {
    hide EnvMap, IsEnvSlice;
    EnvMapKeys(before.env);
    assert '=' !in IMAGE_VARIABLE;
    EnvRoundTrips(after.env, EnvMap(before.env)[IMAGE_VARIABLE := image]);
  }

  lemma PortsAreKept(before: Container, bindings: seq<PortBinding>, b: PortBinding)
    requires Canonical(before) && Lists(bindings, before.ports)
    ensures Published(PortMapOf(bindings), b) == Published(before.ports, b)
  {
    hide ProtocolOrDefault, PortMapOf;
    PortMapPublishes(bindings, b);
    forall k | 0 <= k < |bindings| ensures Normalized(bindings[k]) == bindings[k] {
      assert bindings[k] in multiset(bindings);
      assert Published(before.ports, bindings[k]) > 0;
    }
    assert Map(bindings, Normalized) == bindings;
  }

  lemma NetworkIsFirst(names: seq<string>, networks: set<string>)
    requires InOrder(names, networks)
    ensures names == [] <==> networks == {}
    ensures names != [] ==> FirstOf(names[0], networks)
  {
    InOrderMembers(names, networks);
    if names == [] {
      assert forall n :: n !in networks;
    } else {
      assert names[0] in networks;
      StrLessIrreflexive(names[0]);
      forall other | other in networks ensures !StrLess(other, names[0]) {
        var j :| 0 <= j < |names| && names[j] == other;
      }
    }
  }

  lemma BuiltIsUpdated(before: Container, after: Container, seen: ContainerInspect, name: string, image: string)
    requires Canonical(before) && Shows(seen, name, before) && Built(after, UpdateSpec(name, image, seen))
    ensures Updated(before, after, image)
  {
    hide EnvMap, IsEnvSlice, MountsOf, BindsOf, PortMapOf, Published, Lists, InOrder, FirstOf, Canonical, TrimSpace;
    EnvIsKept(before, after, image);
    ReadMountsRoundTrip(before.binds);
    forall b ensures Published(after.ports, b) == Published(before.ports, b) {
      PortsAreKept(before, seen.publishedPorts, b);
    }
    NetworkIsFirst(seen.networks, before.networks);
  }

  /** Two containers of which an inspection shows the same, but for the ids that Docker gives, and with
      mounts and ports in some order. */
  ghost predicate LooksLike(a: Container, b: Container) {
    && a.image == b.image && a.command == b.command && a.labels == b.labels && a.networks == b.networks
    && EnvMap(a.env) == EnvMap(b.env) && a.restartPolicy == b.restartPolicy
    && multiset(MountsOf(a.binds)) == multiset(MountsOf(b.binds))
    && forall p :: Published(a.ports, p) == Published(b.ports, p)
  }

  /** Of two updates to the same image, one after the other, the second changes nothing that an
      inspection shows, and no update touches another container. */
  method SelfUpdateTwice(docker: Docker, containerName: string, targetImage: string)
      returns (first: Option<DockerError>, second: Option<DockerError>, ghost between: map<string, Container>)
    requires docker.Valid()
    modifies docker
    ensures docker.Valid()
    ensures var name := TrimSpace(containerName);
            && docker.containers - {name} == between - {name} == old(docker.containers) - {name}
            && (first.None? && second.None? ==>
                  && name in between && name in docker.containers && LooksLike(docker.containers[name], between[name]))
  {
    hide TrimSpace, EnvMap, MountsOf, Published, Canonical, StrLess;
    first := SelfUpdateController(docker, containerName, targetImage);
    between := docker.containers;
    second := SelfUpdateController(docker, containerName, targetImage);
  }
}
