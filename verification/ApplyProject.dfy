/** The service that applies projects, as it runs when nothing interrupts it. Its state is at all times
    a state of the machine that a run reaches, so what DeployMachine proves of runs holds of it. */
module ApplyProject {
  import opened Text
  import opened DeployHistory
  import opened DeployMachine
  import opened DeployRuns
  import opened DeploySteps

  lemma InOpening(s: State, f: nat, luck: Luck)
    requires f < |s.frames|
    requires var pc := s.frames[f].pc; pc.Enter? || pc.Start? || pc.Choose? || pc.Queue?
    ensures EffectOf(s, f, luck) == Opening(s, s.frames[f], luck)
  {
  }

  lemma InApplying(s: State, f: nat, luck: Luck)
    requires f < |s.frames|
    requires var pc := s.frames[f].pc; pc.Pull? || pc.Create? || pc.Check? || pc.Route? || pc.Dns? || pc.Announce?
    ensures EffectOf(s, f, luck) == Applying(s, s.frames[f], luck)
  {
  }

  lemma InFinishing(s: State, f: nat, luck: Luck)
    requires f < |s.frames|
    requires var pc := s.frames[f].pc; pc.Fail? || pc.FinishFailed? || pc.FinishLive?
    ensures EffectOf(s, f, luck) == Finishing(s, s.frames[f], luck)
  {
  }

  lemma InRestoring(s: State, f: nat, luck: Luck)
    requires f < |s.frames|
    requires var pc := s.frames[f].pc; pc.Rollback? || pc.RbRead? || pc.RbUpdate? || pc.RbReload? || pc.Await?
    ensures EffectOf(s, f, luck) == Restoring(s, s.frames[f], f, ChildOutcome(s, s.frames[f]), luck)
  {
  }

  /** A finished automatic rollback of invocation f to an image. */
  predicate IsRestored(child: Frame, f: nat, pin: string) {
    && child.job.parent == Some(f) && child.job.trigger == "auto-rollback" && child.pc.Done?
    && child.job.project.imageRef == TrimSpace(pin)
  }

  /** How the last write of a row went: made, made without the store telling so, or not made. */
  datatype Written = Recorded | Unconfirmed | Unrecorded

  function FailureOutcome(cause: Cause, written: Written): Outcome {
    if written.Recorded? then FailedBy(cause) else if written.Unconfirmed? then FailedUnconfirmed(cause) else FailedUnrecorded(cause)
  }

  /** What the outside world decided in the steps of a run, in their order. */
  ghost function Decided(actions: seq<Action>): seq<Luck> {
    if actions == [] then []
    else
      var front, last := Decided(actions[..|actions| - 1]), actions[|actions| - 1];
      if last.Advance? then front + [last.luck] else front
  }

  class ProjectService {
    const deploys: DeployStore
    const docker: bool
    const world: nat -> Luck                // what the outside world decides, step after step
    var asked: nat
    var projects: map<string, ProjectRow>
    var rootSet: bool
    var log: seq<Event>
    var invocations: nat

    ghost const start: State
    ghost var actions: seq<Action>
    ghost var machine: State

    ghost predicate Valid()
      reads this, deploys
    {
      && Initial(start)
      && machine == Run(start, actions)
      && machine.table == deploys.Contents()
      && machine.projects == projects
      && machine.rootSet == rootSet
      && machine.docker == docker
      && machine.log == log
      && |machine.frames| == invocations
      && Answered()
    }

    /** The steps taken so far met what the outside world decided. */
    ghost predicate Answered()
      reads this`actions, this`asked
    {
      |Decided(actions)| == asked && forall k :: 0 <= k < asked ==> Decided(actions)[k] == world(k)
    }

    constructor (deploys: DeployStore, docker: bool, projects: map<string, ProjectRow>, rootSet: bool, world: nat -> Luck)
      requires WellNumbered(deploys.Contents())
      ensures Valid() && this.deploys == deploys && this.docker == docker && this.world == world && asked == 0
    {
      this.deploys, this.docker, this.projects, this.rootSet, this.world, asked := deploys, docker, projects, rootSet, world, 0;
      log, invocations := [], 0;
      start := State(deploys.Contents(), projects, rootSet, docker, [], []);
      actions := [];
      machine := State(deploys.Contents(), projects, rootSet, docker, [], []);
    }

    /** Ask the outside world, and record the machine's step that the statements around the call amount
        to. */
    method Advance(f: nat) returns (luck: Luck)
      requires machine == Run(start, actions) && f < |machine.frames| && Answered()
      modifies this`actions, this`machine, this`asked
      ensures luck == world(old(asked)) && Answered()
      ensures machine == Run(start, actions) && actions == old(actions) + [Action.Advance(f, luck)]
      ensures var m, e := old(machine), EffectOf(old(machine), f, luck);
              && machine.table == e.table && machine.projects == e.projects
              && machine.frames == m.frames[f := e.frame] + (if e.spawned.Some? then [e.spawned.value] else [])
              && machine.log == m.log + Tagged(f, e.stages)
              && machine.rootSet == m.rootSet && machine.docker == m.docker
    {
      hide EffectOf, Tagged;
      luck := world(asked);
      asked := asked + 1;
      actions := actions + [Action.Advance(f, luck)];
      machine := Step(machine, Action.Advance(f, luck));
      assert actions[..|actions| - 1] == old(actions);
    }

    method Emit(f: nat, stage: Stage)
      modifies this`log
      ensures log == old(log) + [Event(f, stage)]
    {
      log := log + [Event(f, stage)];
    }

    /** Nothing but this invocation has moved. */
    twostate predicate OnlyFrame(f: nat)
      reads this, deploys
    {
      && old(actions) <= actions
      && old(invocations) <= invocations
      && rootSet == old(rootSet)
      && forall g :: 0 <= g < |old(machine.frames)| && g != f ==> g < |machine.frames| && machine.frames[g] == old(machine.frames)[g]
    }

    /** The digest of the deploy to fall back to, or nothing. */
    method ChoosePin(job: Job, id: nat, listOk: bool) returns (pin: string)
      ensures pin == if job.disableRollback || !listOk then "" else PinOf(deploys.Contents(), job.projectId, id)
    {
      pin := "";
      if !job.disableRollback {
        var previous := deploys.ListProjectDeploys(job.projectId, HISTORY_LIMIT, listOk);
        if previous.Ok? {
          var n := 0;
          while n < |previous.value|
            invariant 0 <= n <= |previous.value|
            invariant FirstRestorable(deploys.Contents(), job.projectId, id, previous.value)
                   == FirstRestorable(deploys.Contents(), job.projectId, id, previous.value[n..])
          {
            var item := previous.value[n];
            assert HasRow(deploys.Contents(), job.projectId, item);
            var d := deploys.rows[item];
            if item != id && d.status == Live && TrimSpace(d.imageDigest) != "" {
              return d.imageDigest;
            }
            n := n + 1;
          }
        }
      }
    }

    /** Create the row. */
    method CreateRow(f: nat, job: Job) returns (id: Option<nat>)
      requires Valid() && f < invocations
      requires machine.frames[f] == Frame(job, None, "", "", "", None, Start)
      modifies this, deploys
      ensures Valid() && OnlyFrame(f) && projects == old(projects) && invocations == old(invocations)
      ensures id.None? ==> machine.frames[f].job == job && machine.frames[f].pc == Done(NotStarted) && deploys.lastId <= old(deploys.lastId) + 1
      ensures id.Some? ==>
                && id.value == deploys.lastId == old(deploys.lastId) + 1
                && deploys.Contents() == Inserted(old(deploys.Contents()), RowOf(job))
                && machine.frames[f] == Frame(job, id, "", "", "", None, Choose)
    {
      hide Answered, Run, RowOf, EffectOf;
      InOpening(machine, f, world(asked));
      var luck := Advance(f);
      var deploy := deploys.StartProjectDeploy(RowOf(job), luck.ok, luck.readOk);
      id := if deploy.Ok? then Some(deploy.value) else None;
    }

    /** Check the settings and create the row. */
    method Begin(f: nat, job: Job) returns (id: Option<nat>, outcome: Outcome)
      requires Valid() && f < invocations
      requires machine.frames[f] == Frame(job, None, "", "", "", None, Enter)
      modifies this, deploys
      ensures Valid() && OnlyFrame(f) && projects == old(projects) && invocations == old(invocations)
      ensures id.None? ==> machine.frames[f].job == job && machine.frames[f].pc == Done(outcome) && deploys.lastId <= old(deploys.lastId) + 1
      ensures id.Some? ==>
                && id.value == deploys.lastId == old(deploys.lastId) + 1
                && deploys.Contents() == Inserted(old(deploys.Contents()), RowOf(job))
                && machine.frames[f] == Frame(job, id, "", "", "", None, Choose)
    {
      hide Answered, Run, RowOf, EffectOf, Inserted;
      InOpening(machine, f, world(asked));
      var _ := Advance(f);
      if job.project.web && !job.rootSet {
        return None, Refused;
      }
      id := CreateRow(f, job);
      outcome := NotStarted;
    }

    /** Choose the image to fall back to, and announce the start. */
    method Queueing(f: nat, job: Job, id: nat) returns (pin: string)
      requires Valid() && f < invocations
      requires machine.frames[f] == Frame(job, Some(id), "", "", "", None, Choose)
      modifies this
      ensures Valid() && OnlyFrame(f) && projects == old(projects) && invocations == old(invocations)
      ensures machine.frames[f] == Frame(job, Some(id), "", pin, "", None, if docker then Pull else Check)
      ensures pin == "" || (pin == PinOf(deploys.Contents(), job.projectId, id) && !job.disableRollback)
    {
      hide Answered, Run, PinOf, EffectOf;
      InOpening(machine, f, world(asked));
      var luck := Advance(f);
      pin := ChoosePin(job, id, luck.ok);
      Emit(f, Queued);
      InOpening(machine, f, world(asked));
      var _ := Advance(f);
    }

    /** Pull the image unless it is pinned locally. */
    method Pulled(f: nat, fr: Frame) returns (failure: Option<string>)
      requires Valid() && f < invocations && machine.frames[f] == fr && fr.pc.Pull?
      modifies this
      ensures Valid() && OnlyFrame(f) && projects == old(projects) && invocations == old(invocations)
      ensures failure.None? ==> machine.frames[f] == fr.(pc := Create)
      ensures failure.Some? ==> machine.frames[f] == fr.(error := failure.value, failed := Some(PullError), pc := Fail(PullError))
    {
      hide Answered, Run, EffectOf, ShouldPull;
      Emit(f, Pulling);
      InApplying(machine, f, world(asked));
      var luck := Advance(f);
      failure := if ShouldPull(fr.job.project.imageRef) && !luck.ok then Some(luck.text) else None;
    }

    /** Recreate the container: its image's digest, or why not. */
    method Created(f: nat, fr: Frame) returns (digest: Result<string, string>)
      requires Valid() && f < invocations && machine.frames[f] == fr && fr.pc.Create?
      modifies this
      ensures Valid() && OnlyFrame(f) && projects == old(projects) && invocations == old(invocations)
      ensures digest.Ok? ==> machine.frames[f] == fr.(digest := digest.value, pc := Check)
      ensures digest.Err? ==> machine.frames[f] == fr.(error := digest.error, failed := Some(ContainerError), pc := Fail(ContainerError))
    {
      hide Answered, Run, EffectOf, ShouldPull;
      Emit(f, Creating);
      InApplying(machine, f, world(asked));
      var luck := Advance(f);
      digest := if luck.ok then Ok(luck.text) else Err(luck.text);
    }

    /** Pull the image unless it is pinned locally, and recreate the container. */
    method BuildContainer(f: nat, job: Job, id: nat, pin: string) returns (digest: string, failure: Option<(Cause, string)>)
      requires Valid() && f < invocations
      requires machine.frames[f] == Frame(job, Some(id), "", pin, "", None, Pull)
      modifies this
      ensures Valid() && OnlyFrame(f) && projects == old(projects) && invocations == old(invocations)
      ensures failure.None? ==> machine.frames[f] == Frame(job, Some(id), digest, pin, "", None, Check)
      ensures failure.Some? ==>
                && digest == "" && !failure.value.0.HealthError?
                && machine.frames[f] == Frame(job, Some(id), "", pin, failure.value.1, Some(failure.value.0), Fail(failure.value.0))
    {
      hide Answered, Run, EffectOf, ShouldPull;
      var pullError := Pulled(f, Frame(job, Some(id), "", pin, "", None, Pull));
      if pullError.Some? {
        return "", Some((PullError, pullError.value));
      }
      var created := Created(f, Frame(job, Some(id), "", pin, "", None, Create));
      if created.Err? {
        return "", Some((ContainerError, created.error));
      }
      return created.value, None;
    }

    /** Wait until the project is healthy, where it asks for that. */
    method CheckHealth(f: nat, fr: Frame) returns (failure: Option<string>)
      requires Valid() && f < invocations && machine.frames[f] == fr && fr.pc.Check?
      modifies this
      ensures Valid() && OnlyFrame(f) && projects == old(projects) && invocations == old(invocations)
      ensures failure.None? ==> machine.frames[f] == fr.(pc := Route)
      ensures failure.Some? ==> machine.frames[f] == fr.(error := failure.value, failed := Some(HealthError), pc := Fail(HealthError))
    {
      hide Answered, Run, EffectOf, ShouldPull;
      failure := None;
      InApplying(machine, f, world(asked));
      var luck := Advance(f);
      if fr.job.project.web && fr.job.project.healthCheck {
        Emit(f, Checking);
        if luck.ok {
          Emit(f, CheckPassed);
        } else {
          failure := Some(luck.text);
        }
      }
    }

    /** Reconcile the routes, or update DNS. */
    method Attempt(f: nat, fr: Frame) returns (failure: Option<(Cause, string)>)
      requires Valid() && f < invocations && machine.frames[f] == fr && (fr.pc.Route? || fr.pc.Dns?)
      modifies this
      ensures Valid() && OnlyFrame(f) && projects == old(projects) && invocations == old(invocations)
      ensures failure.None? ==> machine.frames[f] == fr.(pc := if fr.pc.Route? then Dns else Announce)
      ensures failure.Some? ==>
                && failure.value.0 == (if fr.pc.Route? then RoutingError else DnsError)
                && machine.frames[f] == fr.(error := failure.value.1, failed := Some(failure.value.0), pc := Fail(failure.value.0))
    {
      hide Answered, Run, EffectOf, ShouldPull;
      Emit(f, if fr.pc.Route? then Routing else Resolving);
      InApplying(machine, f, world(asked));
      var luck := Advance(f);
      failure := if luck.ok then None else Some((if fr.pc.Route? then RoutingError else DnsError, luck.text));
    }

    /** Reconcile the routes and update DNS, then announce the deploy live. */
    method Publish(f: nat, fr: Frame) returns (failure: Option<(Cause, string)>)
      requires Valid() && f < invocations && machine.frames[f] == fr && fr.pc.Route?
      modifies this
      ensures Valid() && OnlyFrame(f) && projects == old(projects) && invocations == old(invocations)
      ensures failure.None? ==> machine.frames[f] == fr.(pc := FinishLive)
      ensures failure.Some? ==>
                && !failure.value.0.HealthError?
                && machine.frames[f] == fr.(error := failure.value.1, failed := Some(failure.value.0), pc := Fail(failure.value.0))
    {
      hide Answered, Run, EffectOf, ShouldPull;
      failure := Attempt(f, fr);
      if failure.None? {
        failure := Attempt(f, fr.(pc := Dns));
        if failure.None? {
          Emit(f, LiveStage);
          InApplying(machine, f, world(asked));
          var _ := Advance(f);
        }
      }
    }

    /** Announce that the deploy failed. */
    method AnnounceFailure(f: nat, fr: Frame)
      requires Valid() && f < invocations && machine.frames[f] == fr && fr.pc.Fail?
      modifies this
      ensures Valid() && OnlyFrame(f) && projects == old(projects) && invocations == old(invocations)
      ensures machine.frames[f] == fr.(pc := FinishFailed(fr.pc.cause))
    {
      hide Answered, Run, EffectOf;
      Emit(f, FailedStage);
      InFinishing(machine, f, world(asked));
      var _ := Advance(f);
    }

    /** Announce the rollback. */
    method AnnounceRollback(f: nat, fr: Frame)
      requires Valid() && f < invocations && machine.frames[f] == fr && fr.pc.Rollback?
      modifies this
      ensures Valid() && OnlyFrame(f) && projects == old(projects) && invocations == old(invocations)
      ensures machine.frames[f] == fr.(pc := RbRead)
    {
      hide Answered, Run, EffectOf;
      Emit(f, RollingBack);
      InRestoring(machine, f, world(asked));
      var _ := Advance(f);
    }

    /** Emit the last stage and write the row's last status. */
    method Finalize(f: nat, fr: Frame) returns (written: Written)
      requires Valid() && f < invocations && machine.frames[f] == fr && fr.record.Some?
      requires fr.pc.FinishLive? || fr.pc.Fail?
      modifies this, deploys
      ensures Valid() && OnlyFrame(f) && projects == old(projects) && invocations == old(invocations)
      ensures deploys.lastId == old(deploys.lastId)
      ensures fr.pc.FinishLive? ==>
                machine.frames[f] == fr.(pc := Done(if written.Recorded? then Succeeded
                                                    else if written.Unconfirmed? then LiveUnconfirmed else LiveUnrecorded))
      ensures fr.pc.Fail? ==>
                machine.frames[f] == fr.(pc := if written.Recorded? && fr.pc.cause.HealthError? && fr.pin != "" && !fr.job.disableRollback
                                               then Rollback else Done(FailureOutcome(fr.pc.cause, written)))
    {
      hide Answered, Run, EffectOf;
      if fr.pc.Fail? {
        AnnounceFailure(f, fr);
      }
      RowIsOwned(start, actions, f);
      InFinishing(machine, f, world(asked));
      var luck := Advance(f);
      var result := deploys.FinishProjectDeploy(fr.job.projectId, fr.record.value, if fr.pc.Fail? then Failed else Live,
                                                fr.digest, if fr.pc.Fail? then fr.error else "", luck.ok, luck.readOk);
      written := if result.Ok? then Recorded else if result.error.ReadFailed? then Unconfirmed else Unrecorded;
    }

    /** Announce the rollback and read the project. */
    method ReadForRollback(f: nat, fr: Frame) returns (record: Option<ProjectRow>)
      requires Valid() && f < invocations && machine.frames[f] == fr && fr.pc.Rollback?
      modifies this
      ensures Valid() && OnlyFrame(f) && projects == old(projects) && invocations == old(invocations)
      ensures record.None? ==> machine.frames[f] == fr.(pc := Done(RollbackFailed(None)))
      ensures record.Some? ==> machine.frames[f] == fr.(pc := RbUpdate(record.value))
    {
      hide Answered, Run, EffectOf, TrimSpace, TriggerOf, Initial;
      AnnounceRollback(f, fr);
      InRestoring(machine, f, world(asked));
      var luck := Advance(f);
      return if luck.ok && fr.job.projectId in projects then Some(projects[fr.job.projectId]) else None;
    }

    /** Store the image to return to. */
    method StorePin(f: nat, fr: Frame, record: ProjectRow) returns (stored: bool)
      requires Valid() && f < invocations && machine.frames[f] == fr && fr.pc == RbUpdate(record)
      modifies this
      ensures Valid() && OnlyFrame(f) && invocations == old(invocations)
      ensures !stored ==> machine.frames[f] == fr.(pc := Done(RollbackFailed(None))) && projects == old(projects)
      ensures stored ==>
                && machine.frames[f] == fr.(pc := RbReload)
                && projects == old(projects)[fr.job.projectId := record.(imageRef := TrimSpace(fr.pin))]
    {
      hide Answered, Run, EffectOf, TrimSpace;
      InRestoring(machine, f, world(asked));
      var luck := Advance(f);
      stored := luck.ok;
      if stored {
        projects := projects[fr.job.projectId := record.(imageRef := TrimSpace(fr.pin))];
      }
    }

    /** Load the project again and start the invocation that applies it. */
    method Reload(f: nat, fr: Frame) returns (reloaded: Option<ProjectRow>)
      requires Valid() && f < invocations && machine.frames[f] == fr && fr.pc.RbReload?
      modifies this
      ensures Valid() && OnlyFrame(f) && projects == old(projects)
      ensures reloaded.None? ==> invocations == old(invocations) && machine.frames[f] == fr.(pc := Done(RollbackFailed(None)))
      ensures reloaded.Some? ==>
                && fr.job.projectId in projects && projects[fr.job.projectId] == reloaded.value
                && invocations == old(invocations) + 1
                && machine.frames[f] == fr.(pc := Await(old(invocations)))
                && machine.frames[old(invocations)] ==
                   NewFrame(fr.job.projectId, reloaded.value, rootSet, "auto-rollback", "system", true, Some(f))
    {
      hide Answered, Run, EffectOf, TrimSpace;
      InRestoring(machine, f, world(asked));
      var luck := Advance(f);
      if !luck.ok || fr.job.projectId !in projects {
        return None;
      }
      invocations := invocations + 1;
      return Some(projects[fr.job.projectId]);
    }

    /** Fail for a reason that no rollback answers. */
    method FailWith(f: nat, fr: Frame, cause: Cause) returns (outcome: Outcome)
      requires Valid() && f < invocations && machine.frames[f] == fr && fr.record.Some? && fr.pc == Fail(cause) && !cause.HealthError?
      modifies this, deploys
      ensures Valid() && OnlyFrame(f) && projects == old(projects) && invocations == old(invocations)
      ensures deploys.lastId == old(deploys.lastId)
      ensures machine.frames[f] == fr.(pc := Done(outcome)) && outcome in [FailedBy(cause), FailedUnconfirmed(cause), FailedUnrecorded(cause)]
    {
      var written := Finalize(f, fr);
      outcome := FailureOutcome(cause, written);
    }

    /** Up to the running container. */
    method Prepare(f: nat, job: Job) returns (ready: Option<Frame>, outcome: Outcome)
      requires Valid() && f < invocations
      requires machine.frames[f] == Frame(job, None, "", "", "", None, Enter)
      modifies this, deploys
      ensures Valid() && OnlyFrame(f) && projects == old(projects) && invocations == old(invocations)
      ensures deploys.lastId <= old(deploys.lastId) + 1
      ensures ready.None? ==>
                && machine.frames[f].job == job && machine.frames[f].pc == Done(outcome)
      ensures ready.Some? ==>
                && machine.frames[f] == ready.value && ready.value.pc.Check? && ready.value.job == job
                && ready.value.record.Some? && ready.value.error == "" && ready.value.failed.None?
                && (ready.value.pin != "" ==>
                      && !job.disableRollback
                      && ready.value.pin == PinOf(Inserted(old(deploys.Contents()), RowOf(job)), job.projectId, old(deploys.lastId) + 1))
    {
      hide Answered, Run, EffectOf, PinOf, RowOf, Step;
      ready := None;
      var id, early := Begin(f, job);
      if id.None? {
        return None, early;
      }
      outcome := NotStarted;
      var pin := Queueing(f, job, id.value);
      var fr := Frame(job, id, "", pin, "", None, Check);
      if docker {
        var digest, failure := BuildContainer(f, job, id.value, pin);
        if failure.Some? {
          var (cause, text) := failure.value;
          outcome := FailWith(f, fr.(error := text, failed := Some(cause), pc := Fail(cause)), cause);
          return;
        }
        fr := fr.(digest := digest);
      }
      ready := Some(fr);
    }

    /** From the running container to the end, without a rollback; None asks for one. */
    method Complete(f: nat, fr: Frame) returns (outcome: Option<Outcome>, last: Frame)
      requires Valid() && f < invocations && machine.frames[f] == fr && fr.pc.Check? && fr.record.Some?
      modifies this, deploys
      ensures Valid() && OnlyFrame(f) && projects == old(projects) && invocations == old(invocations)
      ensures deploys.lastId == old(deploys.lastId)
      ensures machine.frames[f].job == fr.job && machine.frames[f].pin == fr.pin
      ensures outcome.Some? ==> machine.frames[f].pc == Done(outcome.value)
      ensures outcome.None? ==> machine.frames[f] == last && last.pc.Rollback? && fr.pin != "" && !fr.job.disableRollback
    {
      hide Answered, Run, EffectOf, Step;
      last := fr;
      var unhealthy := CheckHealth(f, fr);
      if unhealthy.Some? {
        var failing := fr.(error := unhealthy.value, failed := Some(HealthError), pc := Fail(HealthError));
        var recorded := Finalize(f, failing);
        if recorded.Recorded? && fr.pin != "" && !fr.job.disableRollback {
          return None, failing.(pc := Rollback);
        }
        return Some(FailureOutcome(HealthError, recorded)), fr;
      }
      var failure := Publish(f, fr.(pc := Route));
      if failure.Some? {
        var (cause, text) := failure.value;
        var failed := FailWith(f, fr.(error := text, failed := Some(cause), pc := Fail(cause)), cause);
        return Some(failed), fr;
      }
      var written := Finalize(f, fr.(pc := FinishLive));
      return Some(if written.Recorded? then Succeeded else if written.Unconfirmed? then LiveUnconfirmed else LiveUnrecorded), fr;
    }

    /** One invocation: it ends in one of the machine's outcomes, having created at most one deploy, or
        two when it rolled back to the fallback's image. */
    method Apply(f: nat, job: Job) returns (outcome: Outcome)
      requires Valid() && f < invocations
      requires machine.frames[f] == Frame(job, None, "", "", "", None, Enter)
      modifies this, deploys
      decreases if job.disableRollback then 0 else 2
      ensures Valid() && OnlyFrame(f)
      ensures f < |machine.frames| && machine.frames[f].job == job && machine.frames[f].pc == Done(outcome)
      ensures invocations <= old(invocations) + 1
      ensures deploys.lastId <= old(deploys.lastId) + (if invocations > old(invocations) then 2 else 1)
      ensures job.disableRollback ==> invocations == old(invocations) && projects == old(projects)
      ensures invocations == old(invocations) ==> projects == old(projects) || outcome == RollbackFailed(None)
      ensures invocations > old(invocations) ==>
                var fr, child := machine.frames[f], machine.frames[old(invocations)];
                && (outcome == RolledBack(old(invocations)) || outcome == RollbackFailed(Some(old(invocations))))
                && fr.pin == PinOf(Inserted(old(deploys.Contents()), RowOf(job)), job.projectId, old(deploys.lastId) + 1)
                && IsRestored(child, f, fr.pin)
                && job.projectId in projects && projects[job.projectId].imageRef == TrimSpace(fr.pin)
    {
      hide Answered, Run, EffectOf, PinOf, TrimSpace, TriggerOf, Step, RowOf;
      var ready, early := Prepare(f, job);
      if ready.None? {
        return early;
      }
      var done, last := Complete(f, ready.value);
      if done.Some? {
        return done.value;
      }
      outcome := AutoRollback(f, last);
    }

    /** Store the image to return to, and start the invocation that applies the project with it. */
    method Restore(f: nat, fr: Frame) returns (project: Option<ProjectRow>)
      requires Valid() && f < invocations && machine.frames[f] == fr && fr.pc.Rollback?
      modifies this
      ensures Valid() && OnlyFrame(f)
      ensures project.None? ==> invocations == old(invocations) && machine.frames[f] == fr.(pc := Done(RollbackFailed(None)))
      ensures project.Some? ==>
                && fr.job.projectId in projects && projects[fr.job.projectId] == project.value
                && project.value.imageRef == TrimSpace(fr.pin)
                && invocations == old(invocations) + 1
                && machine.frames[f] == fr.(pc := Await(old(invocations)))
                && machine.frames[old(invocations)] ==
                   NewFrame(fr.job.projectId, project.value, rootSet, "auto-rollback", "system", true, Some(f))
    {
      hide Answered, Run, EffectOf, PinOf, TrimSpace, TriggerOf, Step;
      project := None;
      var record := ReadForRollback(f, fr);
      if record.Some? {
        var stored := StorePin(f, fr.(pc := RbUpdate(record.value)), record.value);
        if stored {
          project := Reload(f, fr.(pc := RbReload));
        }
      }
    }

    /** Return as the rollback did. */
    method AwaitRollback(f: nat, ghost fr: Frame, child: nat, ended: Outcome) returns (outcome: Outcome)
      requires Valid() && f < invocations && child < invocations && machine.frames[f] == fr
      requires fr.pc == Await(child) && machine.frames[child].pc == Done(ended)
      modifies this
      ensures Valid() && OnlyFrame(f) && projects == old(projects) && invocations == old(invocations)
      ensures outcome == if ended.Succeeded? then RolledBack(child) else RollbackFailed(Some(child))
      ensures machine.frames[f] == fr.(pc := Done(outcome))
    {
      hide Answered, Run, EffectOf, TrimSpace;
      InRestoring(machine, f, world(asked));
      var _ := Advance(f);
      outcome := if ended.Succeeded? then RolledBack(child) else RollbackFailed(Some(child));
    }

    /** Return to the fallback's image; the invocation that does so starts no further one. */
    method AutoRollback(f: nat, fr: Frame) returns (outcome: Outcome)
      requires Valid() && f < invocations && machine.frames[f] == fr && fr.pc.Rollback? && !fr.job.disableRollback
      modifies this, deploys
      decreases 1
      ensures Valid() && OnlyFrame(f)
      ensures f < |machine.frames| && machine.frames[f].job == fr.job && machine.frames[f].pin == fr.pin
      ensures machine.frames[f].pc == Done(outcome)
      ensures invocations == old(invocations) ==> outcome == RollbackFailed(None) && deploys.lastId == old(deploys.lastId)
      ensures invocations != old(invocations) ==>
                && invocations == old(invocations) + 1 && deploys.lastId <= old(deploys.lastId) + 1
                && (outcome == RolledBack(old(invocations)) || outcome == RollbackFailed(Some(old(invocations))))
                && IsRestored(machine.frames[old(invocations)], f, fr.pin)
                && fr.job.projectId in projects && projects[fr.job.projectId].imageRef == TrimSpace(fr.pin)
    {
      hide Answered, Run, EffectOf, PinOf, TrimSpace, TriggerOf, Step;
      var child := invocations;
      var project := Restore(f, fr);
      if project.None? {
        return RollbackFailed(None);
      }
      var ended := Apply(child, Job(fr.job.projectId, project.value, rootSet, "auto-rollback", "system", true, Some(f)));
      outcome := AwaitRollback(f, machine.frames[f], child, ended);
    }

    /** An outside call: a new invocation with the project and settings as the caller loaded them. */
    method DeployProject(projectId: string, project: ProjectRow, rootDomainSet: bool, trigger: string, actor: string) returns (outcome: Outcome)
      requires Valid()
      modifies this, deploys
      ensures Valid() && old(actions) <= actions
      ensures var f := old(invocations);
              && f < |machine.frames| && machine.frames[f].job == Job(projectId, project, rootDomainSet, trigger, actor, false, None)
              && Agrees(deploys.Contents(), machine.frames[f], outcome, Terminals(log, f))
              && Announced(log, f) == Story(docker, machine.frames[f])
              && (ReturnsNil(outcome) <==> !Met(start, actions, f, KeepsFromNil))
      ensures HistoryKept(old(deploys.Contents()), deploys.Contents())
      ensures invocations <= old(invocations) + 2
      ensures deploys.lastId <= old(deploys.lastId) + (if invocations > old(invocations) + 1 then 2 else 1)
      ensures invocations > old(invocations) + 1 ==>
                var fr := machine.frames[old(invocations)];
                && fr.pin == PinOf(Inserted(old(deploys.Contents()), RowOf(fr.job)), projectId, old(deploys.lastId) + 1)
                && IsRestored(machine.frames[old(invocations) + 1], old(invocations), fr.pin)
                && projectId in projects && projects[projectId].imageRef == TrimSpace(fr.pin)
    {
      hide Answered, Run, PinOf, TrimSpace, RowOf, Agrees, HistoryKept, Terminals, Announced, Story, Met, OwnRow, EffectOf, Step, TriggerOf, IsRestored;
      ghost var before := actions;
      var f := invocations;
      StartInvocation(projectId, project, rootDomainSet, trigger, actor);
      outcome := Apply(f, Job(projectId, project, rootDomainSet, trigger, actor, false, None));
      OutcomesAgree(start, actions, f);
      StoryIsTold(start, actions);
      LiveIff(start, actions, f);
      HistorySafety(start, before, actions[|before|..]);
      assert before + actions[|before|..] == actions;
    }

    method StartInvocation(projectId: string, project: ProjectRow, rootDomainSet: bool, trigger: string, actor: string)
      requires Valid()
      modifies this
      ensures Valid() && old(actions) <= actions && projects == old(projects)
      ensures invocations == old(invocations) + 1
      ensures machine.frames == old(machine.frames) + [NewFrame(projectId, project, rootDomainSet, trigger, actor, false, None)]
    {
      ghost var call := Call(projectId, project, rootDomainSet, trigger, actor);
      actions := actions + [call];
      machine := Step(machine, call);
      assert actions[..|actions| - 1] == old(actions);
      invocations := invocations + 1;
    }
  }
}
