/** Applying projects as a state machine. A frame is one invocation of applyProject; any number of
    frames advance in any order, one atomic step at a time, while projects and settings are edited. */
module DeployMachine {
  import opened Text
  import opened DeployHistory

  /** What an invocation reads of a stored project. */
  datatype ProjectRow = ProjectRow(imageRef: string, web: bool, healthCheck: bool)

  datatype Cause = PullError | ContainerError | HealthError | RoutingError | DnsError

  datatype Stage =
    | Queued | Pulling | Creating | Checking | CheckPassed | Routing | Resolving | RollingBack
    | LiveStage | FailedStage

  predicate Terminal(stage: Stage) {
    stage.LiveStage? || stage.FailedStage?
  }

  datatype Outcome =
    | Refused                  // no root domain for a web project
    | NotStarted               // the deploy row could not be created and read back
    | Succeeded
    | LiveUnrecorded           // the last status could not be written
    | LiveUnconfirmed          // it was written, but the store could not tell
    | FailedBy(cause: Cause)
    | FailedUnrecorded(cause: Cause)
    | FailedUnconfirmed(cause: Cause)
    | RolledBack(child: nat)
    | RollbackFailed(attempt: Option<nat>)

  datatype Pc =
    | Enter | Start | Choose | Queue | Pull | Create | Check | Route | Dns | Announce | FinishLive
    | Fail(cause: Cause) | FinishFailed(cause: Cause)
    | Rollback | RbRead | RbUpdate(read: ProjectRow) | RbReload | Await(child: nat)
    | Done(outcome: Outcome)

  /** What an invocation is called with. */
  datatype Job = Job(
    projectId: string,
    project: ProjectRow,
    rootSet: bool,
    trigger: string,
    actor: string,
    disableRollback: bool,
    parent: Option<nat>)

  datatype Frame = Frame(
    job: Job,
    record: Option<nat>,
    digest: string,
    pin: string,
    error: string,
    failed: Option<Cause>,
    pc: Pc)

  datatype Event = Event(frame: nat, stage: Stage)

  datatype State = State(
    table: Table,
    projects: map<string, ProjectRow>,
    rootSet: bool,
    docker: bool,
    frames: seq<Frame>,
    log: seq<Event>)

  /** What the outside world decides in a step: success, success of reading back what was written, and a
      text. */
  datatype Luck = Luck(ok: bool, readOk: bool, text: string)

  datatype Action =
    | Call(projectId: string, project: ProjectRow, rootSet: bool, trigger: string, actor: string)
    | Advance(frame: nat, luck: Luck)
    | Edit(editedId: string, row: ProjectRow)
    | Configure(rootDomainSet: bool)

  // ---- One step of one frame ----

  function TriggerOf(trigger: string): string {
    if Blank(trigger) then "deploy" else TrimSpace(trigger)
  }

  function NewFrame(projectId: string, project: ProjectRow, rootSet: bool, trigger: string, actor: string,
                    disableRollback: bool, parent: Option<nat>): Frame {
    Frame(Job(projectId, project, rootSet, trigger, actor, disableRollback, parent), None, "", "", "", None, Enter)
  }

  /** The row that an invocation creates. */
  function RowOf(job: Job): Deploy {
    Deploy(job.projectId, job.project.imageRef, TriggerOf(job.trigger), TrimSpace(job.actor), Running, "", "")
  }

  function ShouldPull(imageRef: string): bool {
    !HasPrefix(TrimSpace(imageRef), "sha256:")
  }

  datatype Effect = Effect(
    table: Table,
    projects: map<string, ProjectRow>,
    frame: Frame,
    stages: seq<Stage>,
    spawned: Option<Frame>)

  predicate OwnsRow(t: Table, fr: Frame) {
    fr.record.Some? && HasRow(t, fr.job.projectId, fr.record.value)
  }

  /** The failure exit that most steps share. */
  function Try(fr: Frame, luck: Luck, next: Pc, cause: Cause): Frame {
    if luck.ok then fr.(pc := next) else fr.(error := luck.text, failed := Some(cause), pc := Fail(cause))
  }

  function Same(s: State, fr: Frame): Effect {
    Effect(s.table, s.projects, fr, [], None)
  }

  /** Up to the queued stage. */
  function Opening(s: State, fr: Frame, luck: Luck): Effect {
    match fr.pc
    case Enter =>
      Same(s, fr.(pc := if fr.job.project.web && !fr.job.rootSet then Done(Refused) else Start))
    case Start =>
      if !luck.ok then Same(s, fr.(pc := Done(NotStarted)))
      else Same(s, fr.(record := Some(s.table.lastId + 1), pc := if luck.readOk then Choose else Done(NotStarted)))
           .(table := Inserted(s.table, RowOf(fr.job)))
    case Choose =>
      var pin := if fr.job.disableRollback || !luck.ok || fr.record.None? then ""
                 else PinOf(s.table, fr.job.projectId, fr.record.value);
      Same(s, fr.(pin := pin, pc := Queue))
    case Queue =>
      Same(s, fr.(pc := if s.docker then Pull else Check)).(stages := [Queued])
    case _ => Same(s, fr)
  }

  /** From the image to the announcement. */
  function Applying(s: State, fr: Frame, luck: Luck): Effect {
    match fr.pc
    case Pull =>
      Same(s, if ShouldPull(fr.job.project.imageRef) then Try(fr, luck, Create, PullError) else fr.(pc := Create)).(stages := [Pulling])
    case Create =>
      var next := Try(fr, luck, Check, ContainerError);
      Same(s, if luck.ok then next.(digest := luck.text) else next).(stages := [Creating])
    case Check =>
      if fr.job.project.web && fr.job.project.healthCheck
      then Same(s, Try(fr, luck, Route, HealthError)).(stages := if luck.ok then [Checking, CheckPassed] else [Checking])
      else Same(s, fr.(pc := Route))
    case Route =>
      Same(s, Try(fr, luck, Dns, RoutingError)).(stages := [Routing])
    case Dns =>
      Same(s, Try(fr, luck, Announce, DnsError)).(stages := [Resolving])
    case Announce =>
      Same(s, fr.(pc := FinishLive)).(stages := [LiveStage])
    case _ => Same(s, fr)
  }

  /** The last write of the row. */
  function Finishing(s: State, fr: Frame, luck: Luck): Effect {
    match fr.pc
    case FinishLive =>
      if luck.ok && OwnsRow(s.table, fr)
      then Same(s, fr.(pc := Done(if luck.readOk then Succeeded else LiveUnconfirmed))).(table := FinishedIn(s.table, fr.record.value, Live, fr.digest, ""))
      else Same(s, fr.(pc := Done(LiveUnrecorded)))
    case Fail(cause) =>
      Same(s, fr.(pc := FinishFailed(cause))).(stages := [FailedStage])
    case FinishFailed(cause) =>
      if luck.ok && OwnsRow(s.table, fr)
      then Same(s, fr.(pc := if !luck.readOk then Done(FailedUnconfirmed(cause))
                             else if cause.HealthError? && fr.pin != "" && !fr.job.disableRollback then Rollback
                             else Done(FailedBy(cause))))
           .(table := FinishedIn(s.table, fr.record.value, Failed, fr.digest, fr.error))
      else Same(s, fr.(pc := Done(FailedUnrecorded(cause))))
    case _ => Same(s, fr)
  }

  /** The automatic rollback: self numbers this frame, child is how the awaited frame ended. */
  function Restoring(s: State, fr: Frame, self: nat, child: Option<Outcome>, luck: Luck): Effect {
    match fr.pc
    case Rollback =>
      Same(s, fr.(pc := RbRead)).(stages := [RollingBack])
    case RbRead =>
      Same(s, fr.(pc := if luck.ok && fr.job.projectId in s.projects then RbUpdate(s.projects[fr.job.projectId])
                        else Done(RollbackFailed(None))))
    case RbUpdate(read) =>
      if luck.ok
      then Same(s, fr.(pc := RbReload)).(projects := s.projects[fr.job.projectId := read.(imageRef := TrimSpace(fr.pin))])
      else Same(s, fr.(pc := Done(RollbackFailed(None))))
    case RbReload =>
      if luck.ok && fr.job.projectId in s.projects
      then Same(s, fr.(pc := Await(|s.frames|)))
           .(spawned := Some(NewFrame(fr.job.projectId, s.projects[fr.job.projectId], s.rootSet, "auto-rollback", "system", true, Some(self))))
      else Same(s, fr.(pc := Done(RollbackFailed(None))))
    case Await(c) =>
      if child.None? then Same(s, fr)
      else Same(s, fr.(pc := Done(if child.value.Succeeded? then RolledBack(c) else RollbackFailed(Some(c)))))
    case _ => Same(s, fr)
  }

  function Local(s: State, fr: Frame, self: nat, child: Option<Outcome>, luck: Luck): Effect {
    if fr.pc.Enter? || fr.pc.Start? || fr.pc.Choose? || fr.pc.Queue? then Opening(s, fr, luck)
    else if fr.pc.Fail? || fr.pc.FinishFailed? || fr.pc.FinishLive? then Finishing(s, fr, luck)
    else if fr.pc.Rollback? || fr.pc.RbRead? || fr.pc.RbUpdate? || fr.pc.RbReload? || fr.pc.Await?
      then Restoring(s, fr, self, child, luck)
    else Applying(s, fr, luck)
  }

  function Tagged(self: nat, stages: seq<Stage>): seq<Event> {
    seq(|stages|, i requires 0 <= i < |stages| => Event(self, stages[i]))
  }

  function OutcomeOf(fr: Frame): Option<Outcome> {
    if fr.pc.Done? then Some(fr.pc.outcome) else None
  }

  function ChildOutcome(s: State, fr: Frame): Option<Outcome> {
    if fr.pc.Await? && fr.pc.child < |s.frames| then OutcomeOf(s.frames[fr.pc.child]) else None
  }

  function EffectOf(s: State, f: nat, luck: Luck): Effect
    requires f < |s.frames|
  {
    Local(s, s.frames[f], f, ChildOutcome(s, s.frames[f]), luck)
  }

  function Step(s: State, action: Action): State {
    match action
    case Call(projectId, project, rootSet, trigger, actor) =>
      s.(frames := s.frames + [NewFrame(projectId, project, rootSet, trigger, actor, false, None)])
    case Advance(f, luck) =>
      if f >= |s.frames| then s
      else
        var e := EffectOf(s, f, luck);
        s.(table := e.table,
           projects := e.projects,
           frames := s.frames[f := e.frame] + (if e.spawned.Some? then [e.spawned.value] else []),
           log := s.log + Tagged(f, e.stages))
    case Edit(projectId, row) =>
      s.(projects := s.projects[projectId := row])
    case Configure(rootSet) =>
      s.(rootSet := rootSet)
  }

  function Run(s: State, actions: seq<Action>): State {
    if actions == [] then s else Step(Run(s, actions[..|actions| - 1]), actions[|actions| - 1])
  }

  // ---- What holds of every frame ----

  /** The terminal stages that a frame has emitted. */
  function Terminals(log: seq<Event>, f: nat): seq<Stage> {
    if log == [] then []
    else
      var front, last := Terminals(log[..|log| - 1], f), log[|log| - 1];
      if last.frame == f && Terminal(last.stage) then front + [last.stage] else front
  }

  predicate OwnRow(t: Table, fr: Frame, status: Status) {
    && OwnsRow(t, fr)
    && var row := t.rows[fr.record.value];
       && row.status == status
       && row.imageRef == fr.job.project.imageRef
       && row.trigger == TriggerOf(fr.job.trigger)
       && row.actor == TrimSpace(fr.job.actor)
       && (status == Running ==> row.imageDigest == "" && row.error == "")
       && (status != Running ==> row.imageDigest == fr.digest && row.error == fr.error)
  }

  /** Nothing has failed so far. */
  predicate Untroubled(fr: Frame) {
    fr.failed.None? && fr.error == ""
  }

  /** An invocation that has not taken a step. */
  predicate IsNew(fr: Frame) {
    fr.pc.Enter? && fr.record.None? && fr.pin == "" && fr.digest == "" && Untroubled(fr)
  }

  predicate MayRollBack(fr: Frame) {
    !fr.job.disableRollback && fr.pin != "" && fr.failed == Some(HealthError)
  }

  predicate OutcomeOk(t: Table, fr: Frame, outcome: Outcome, terminals: seq<Stage>) {
    match outcome
    case Refused => fr.record.None? && terminals == [] && Untroubled(fr)
    case NotStarted => (fr.record.None? || OwnRow(t, fr, Running)) && terminals == [] && Untroubled(fr)
    case Succeeded => OwnRow(t, fr, Live) && terminals == [LiveStage] && Untroubled(fr)
    case LiveUnrecorded => OwnRow(t, fr, Running) && terminals == [LiveStage] && Untroubled(fr)
    case LiveUnconfirmed => OwnRow(t, fr, Live) && terminals == [LiveStage] && Untroubled(fr)
    case FailedUnconfirmed(cause) => OwnRow(t, fr, Failed) && terminals == [FailedStage] && fr.failed == Some(cause)
    case FailedBy(cause) => OwnRow(t, fr, Failed) && terminals == [FailedStage] && fr.failed == Some(cause)
    case FailedUnrecorded(cause) => OwnRow(t, fr, Running) && terminals == [FailedStage] && fr.failed == Some(cause)
    case RolledBack(_) => OwnRow(t, fr, Failed) && terminals == [FailedStage] && MayRollBack(fr)
    case RollbackFailed(_) => OwnRow(t, fr, Failed) && terminals == [FailedStage] && MayRollBack(fr)
  }

  predicate FrameOk(t: Table, fr: Frame, terminals: seq<Stage>) {
    match fr.pc
    case Enter => fr.record.None? && terminals == [] && fr.pin == "" && fr.digest == "" && Untroubled(fr)
    case Start => fr.record.None? && terminals == [] && fr.pin == "" && fr.digest == "" && Untroubled(fr)
    case Choose | Queue | Pull | Create => OwnRow(t, fr, Running) && terminals == [] && fr.digest == "" && Untroubled(fr)
    case Check | Route | Dns | Announce => OwnRow(t, fr, Running) && terminals == [] && Untroubled(fr)
    case FinishLive => OwnRow(t, fr, Running) && terminals == [LiveStage] && Untroubled(fr)
    case Fail(cause) => OwnRow(t, fr, Running) && terminals == [] && fr.failed == Some(cause)
    case FinishFailed(cause) => OwnRow(t, fr, Running) && terminals == [FailedStage] && fr.failed == Some(cause)
    case Rollback | RbRead | RbUpdate(_) | RbReload | Await(_) => OwnRow(t, fr, Failed) && terminals == [FailedStage] && MayRollBack(fr)
    case Done(outcome) => OutcomeOk(t, fr, outcome, terminals)
  }

  /** A pin is the digest of another live deploy of the project. */
  ghost predicate PinOk(t: Table, fr: Frame) {
    fr.pin != "" ==> fr.record.Some? && exists id ::
      Restorable(t, fr.job.projectId, fr.record.value, id) && t.rows[id].imageDigest == fr.pin
  }

  /** A frame with a parent is the one rollback its parent waits for or has waited for. */
  predicate LinkOk(frames: seq<Frame>, f: nat)
    requires f < |frames|
  {
    var fr := frames[f];
    && (fr.job.parent.Some? ==>
          && fr.job.parent.value < f
          && fr.job.disableRollback && fr.job.trigger == "auto-rollback"
          && var p := frames[fr.job.parent.value];
             p.job.projectId == fr.job.projectId && (p.pc == Await(f) || p.pc == Done(RolledBack(f)) || p.pc == Done(RollbackFailed(Some(f)))))
    && (fr.pc.Await? ==> fr.pc.child < |frames| && frames[fr.pc.child].job.parent == Some(f))
    && (fr.pc.Done? && fr.pc.outcome.RolledBack? ==>
          fr.pc.outcome.child < |frames| && frames[fr.pc.outcome.child].job.parent == Some(f)
          && frames[fr.pc.outcome.child].pc == Done(Succeeded))
    && (fr.pc.Done? && fr.pc.outcome.RollbackFailed? && fr.pc.outcome.attempt.Some? ==>
          var c := fr.pc.outcome.attempt.value;
          c < |frames| && frames[c].job.parent == Some(f) && frames[c].pc.Done? && frames[c].pc != Done(Succeeded))
  }

  ghost predicate Inv(s: State) {
    && WellNumbered(s.table)
    && (forall f :: 0 <= f < |s.frames| ==> FrameOk(s.table, s.frames[f], Terminals(s.log, f)))
    && (forall f :: 0 <= f < |s.frames| ==> PinOk(s.table, s.frames[f]))
    && (forall f :: 0 <= f < |s.frames| ==> LinkOk(s.frames, f))
    && (forall f, g :: 0 <= f < g < |s.frames| && s.frames[f].record.Some? ==> s.frames[f].record != s.frames[g].record)
    && (forall e :: e in s.log ==> e.frame < |s.frames|)
  }

  // ---- How a step changes the table ----

  /** Rows are never removed and keep what they were inserted with; only the owner's row may change, by leaving "running". */
  ghost predicate TableStep(t: Table, u: Table, owner: Option<nat>) {
    && t.lastId <= u.lastId
    && WellNumbered(u)
    && forall id :: id in t.rows ==>
         && id in u.rows
         && u.rows[id].projectId == t.rows[id].projectId
         && u.rows[id].imageRef == t.rows[id].imageRef
         && u.rows[id].trigger == t.rows[id].trigger
         && u.rows[id].actor == t.rows[id].actor
         && (u.rows[id] == t.rows[id]
             || (Some(id) == owner && t.rows[id].status == Running && u.rows[id].status != Running))
  }

  lemma {:induction false} TerminalsAppend(log: seq<Event>, more: seq<Event>, f: nat)
    ensures Terminals(log + more, f) == Terminals(log, f) + Terminals(more, f)
  {
    if more == [] {
      assert log + more == log;
    } else {
      assert (log + more)[..|log + more| - 1] == log + more[..|more| - 1];
      TerminalsAppend(log, more[..|more| - 1], f);
    }
  }

  lemma {:induction false} TerminalsOfOthers(log: seq<Event>, f: nat)
    requires forall e :: e in log ==> e.frame != f
    ensures Terminals(log, f) == []
  {
    if log != [] {
      TerminalsOfOthers(log[..|log| - 1], f);
    }
  }

  /** The terminal stages of one step: at most one, alone. */
  function TerminalsOfStep(stages: seq<Stage>): seq<Stage> {
    if |stages| == 1 && Terminal(stages[0]) then stages else []
  }

  lemma TerminalsOfStages(self: nat, stages: seq<Stage>)
    requires |stages| <= 1 || stages == [Checking, CheckPassed]
    ensures Terminals(Tagged(self, stages), self) == TerminalsOfStep(stages)
  {
    var log := Tagged(self, stages);
    if |stages| == 1 {
      assert log[..0] == [];
    } else if |stages| == 2 {
      assert log[..1][..0] == [];
      assert Terminals(log[..1], self) == [];
    }
  }

  /** What the other frames may rely on when this one steps. */
  ghost predicate StepOk(s: State, fr: Frame, terminals: seq<Stage>, e: Effect) {
    && TableStep(s.table, e.table, if fr.pc.Start? then None else fr.record)
    && (e.frame.record == fr.record
        || (fr.pc.Start? && e.frame.record == Some(s.table.lastId + 1) && e.table.lastId == s.table.lastId + 1))
    && (|e.stages| <= 1 || e.stages == [Checking, CheckPassed])
    && FrameOk(e.table, e.frame, terminals + TerminalsOfStep(e.stages))
    && (fr.pc.Choose? || e.frame.pin == fr.pin)
    && e.frame.job == fr.job
  }

  lemma SameTable(t: Table, owner: Option<nat>)
    requires WellNumbered(t)
    ensures TableStep(t, t, owner)
  {
  }

  lemma OpeningOk(s: State, fr: Frame, luck: Luck, terminals: seq<Stage>)
    requires WellNumbered(s.table) && FrameOk(s.table, fr, terminals)
    requires fr.pc.Enter? || fr.pc.Start? || fr.pc.Choose? || fr.pc.Queue?
    ensures StepOk(s, fr, terminals, Opening(s, fr, luck))
  {
    hide PinOf, TriggerOf, TrimSpace, Blank;
  }

  lemma ApplyingOk(s: State, fr: Frame, luck: Luck, terminals: seq<Stage>)
    requires WellNumbered(s.table) && FrameOk(s.table, fr, terminals)
    requires fr.pc.Pull? || fr.pc.Create? || fr.pc.Check? || fr.pc.Route? || fr.pc.Dns? || fr.pc.Announce?
    ensures StepOk(s, fr, terminals, Applying(s, fr, luck))
  {
    hide ShouldPull, OwnRow, WellNumbered, TableStep;
    var e := Applying(s, fr, luck);
    SameTable(s.table, fr.record);
    RunningRowStays(s.table, fr, e.frame);
  }

  lemma FinishedOwn(t: Table, fr: Frame, status: Status, error: string)
    requires WellNumbered(t) && OwnRow(t, fr, Running) && status != Running && error == fr.error
    ensures OwnRow(FinishedIn(t, fr.record.value, status, fr.digest, error), fr, status)
    ensures TableStep(t, FinishedIn(t, fr.record.value, status, fr.digest, error), fr.record)
  {
  }

  lemma RunningRowStays(t: Table, fr: Frame, next: Frame)
    requires next.job == fr.job && next.record == fr.record
    ensures OwnRow(t, next, Running) == OwnRow(t, fr, Running)
  {
  }

  lemma OwnRowIgnoresPc(t: Table, fr: Frame, pc: Pc, status: Status)
    ensures OwnRow(t, fr.(pc := pc), status) == OwnRow(t, fr, status)
  {
  }

  lemma OwnRowOwns(t: Table, fr: Frame, status: Status)
    requires OwnRow(t, fr, status)
    ensures OwnsRow(t, fr)
  {
  }

  lemma FinishLiveOk(s: State, fr: Frame, luck: Luck, terminals: seq<Stage>)
    requires WellNumbered(s.table) && FrameOk(s.table, fr, terminals) && fr.pc.FinishLive?
    ensures StepOk(s, fr, terminals, Finishing(s, fr, luck))
  {
    hide OwnRow, OwnsRow, TableStep, WellNumbered, FinishedIn;
    OwnRowOwns(s.table, fr, Running);
    SameTable(s.table, fr.record);
    FinishedOwn(s.table, fr, Live, "");
    var e := Finishing(s, fr, luck);
    OwnRowIgnoresPc(e.table, fr, e.frame.pc, Running);
    OwnRowIgnoresPc(e.table, fr, e.frame.pc, Live);
  }

  lemma FailingOk(s: State, fr: Frame, luck: Luck, terminals: seq<Stage>)
    requires WellNumbered(s.table) && FrameOk(s.table, fr, terminals) && fr.pc.Fail?
    ensures StepOk(s, fr, terminals, Finishing(s, fr, luck))
  {
    hide OwnRow, TableStep, WellNumbered;
    SameTable(s.table, fr.record);
    OwnRowIgnoresPc(s.table, fr, FinishFailed(fr.pc.cause), Running);
  }

  lemma FinishFailedOk(s: State, fr: Frame, luck: Luck, terminals: seq<Stage>)
    requires WellNumbered(s.table) && FrameOk(s.table, fr, terminals) && fr.pc.FinishFailed?
    ensures StepOk(s, fr, terminals, Finishing(s, fr, luck))
  {
    hide OwnRow, OwnsRow, TableStep, WellNumbered, FinishedIn;
    OwnRowOwns(s.table, fr, Running);
    SameTable(s.table, fr.record);
    FinishedOwn(s.table, fr, Failed, fr.error);
    var e := Finishing(s, fr, luck);
    OwnRowIgnoresPc(e.table, fr, e.frame.pc, Running);
    OwnRowIgnoresPc(e.table, fr, e.frame.pc, Failed);
  }

  lemma RestoringOk(s: State, fr: Frame, self: nat, child: Option<Outcome>, luck: Luck, terminals: seq<Stage>)
    requires WellNumbered(s.table) && FrameOk(s.table, fr, terminals)
    requires fr.pc.Rollback? || fr.pc.RbRead? || fr.pc.RbUpdate? || fr.pc.RbReload? || fr.pc.Await?
    ensures StepOk(s, fr, terminals, Restoring(s, fr, self, child, luck))
  {
    hide TriggerOf, TrimSpace, HasRow, WellNumbered;
    SameTable(s.table, fr.record);
    var e := Restoring(s, fr, self, child, luck);
    OwnRowIgnoresPc(e.table, fr, e.frame.pc, Failed);
  }

  /** The frame that steps keeps its own promises. */
  lemma LocalOk(s: State, fr: Frame, self: nat, child: Option<Outcome>, luck: Luck, terminals: seq<Stage>)
    requires WellNumbered(s.table) && FrameOk(s.table, fr, terminals)
    ensures StepOk(s, fr, terminals, Local(s, fr, self, child, luck))
  {
    hide Opening, Finishing, Restoring;
    if fr.pc.Enter? || fr.pc.Start? || fr.pc.Choose? || fr.pc.Queue? {
      OpeningOk(s, fr, luck, terminals);
    } else if fr.pc.Fail? || fr.pc.FinishFailed? || fr.pc.FinishLive? {
      if fr.pc.FinishLive? { FinishLiveOk(s, fr, luck, terminals); }
      else if fr.pc.Fail? { FailingOk(s, fr, luck, terminals); }
      else { FinishFailedOk(s, fr, luck, terminals); }
    } else if fr.pc.Rollback? || fr.pc.RbRead? || fr.pc.RbUpdate? || fr.pc.RbReload? || fr.pc.Await? {
      RestoringOk(s, fr, self, child, luck, terminals);
    } else if !fr.pc.Done? {
      ApplyingOk(s, fr, luck, terminals);
    } else {
      assert terminals + [] == terminals;
    }
  }

  lemma PinStays(t: Table, u: Table, fr: Frame, owner: Option<nat>)
    requires PinOk(t, fr) && TableStep(t, u, owner)
    ensures PinOk(u, fr)
  {
    if fr.pin != "" {
      var id :| Restorable(t, fr.job.projectId, fr.record.value, id) && t.rows[id].imageDigest == fr.pin;
      assert Restorable(u, fr.job.projectId, fr.record.value, id);
    }
  }

  lemma LocalPin(s: State, fr: Frame, self: nat, child: Option<Outcome>, luck: Luck, terminals: seq<Stage>)
    requires WellNumbered(s.table) && PinOk(s.table, fr) && FrameOk(s.table, fr, terminals)
    ensures var e := Local(s, fr, self, child, luck); PinOk(e.table, e.frame)
  {
    hide PinOf, TriggerOf, TrimSpace, TableStep, Applying, Finishing, Restoring;
    var e := Local(s, fr, self, child, luck);
    LocalOk(s, fr, self, child, luck, terminals);
    if fr.pc.Choose? {
      PinIsFallback(s.table, fr.job.projectId, fr.record.value);
    } else {
      PinStays(s.table, e.table, fr, if fr.pc.Start? then None else fr.record);
    }
  }

  /** Frames that do not step keep their promises: their rows are not touched. */
  lemma OthersKeep(t: Table, u: Table, fr: Frame, terminals: seq<Stage>, owner: Option<nat>)
    requires FrameOk(t, fr, terminals) && TableStep(t, u, owner)
    requires fr.record.Some? ==> fr.record != owner
    ensures FrameOk(u, fr, terminals)
  {
  }

  // ---- Every step keeps the invariant ----

  lemma RecordInTable(t: Table, fr: Frame, terminals: seq<Stage>)
    requires WellNumbered(t) && FrameOk(t, fr, terminals) && fr.record.Some?
    ensures HasRow(t, fr.job.projectId, fr.record.value) && fr.record.value <= t.lastId
  {
  }

  lemma TerminalsBesides(log: seq<Event>, f: nat, stages: seq<Stage>, g: nat)
    requires f != g
    ensures Terminals(log + Tagged(f, stages), g) == Terminals(log, g)
  {
    TerminalsAppend(log, Tagged(f, stages), g);
    TerminalsOfOthers(Tagged(f, stages), g);
    assert Terminals(log, g) + [] == Terminals(log, g);
  }

  lemma NewFrameOk(t: Table, fr: Frame, log: seq<Event>, f: nat)
    requires IsNew(fr)
    requires forall e :: e in log ==> e.frame < f
    ensures FrameOk(t, fr, Terminals(log, f)) && PinOk(t, fr)
  {
    TerminalsOfOthers(log, f);
  }

  lemma AdvanceFrames(s: State, f: nat, luck: Luck, g: nat)
    requires Inv(s) && f < |s.frames|
    requires g < |Step(s, Advance(f, luck)).frames|
    ensures var n := Step(s, Advance(f, luck));
            FrameOk(n.table, n.frames[g], Terminals(n.log, g)) && PinOk(n.table, n.frames[g])
  {
    hide Inv, FrameOk, PinOk, Local, TableStep, Terminals, WellNumbered;
    FrameFacts(s, f);
    var fr, e := s.frames[f], EffectOf(s, f, luck);
    var child, before := ChildOutcome(s, fr), Terminals(s.log, f);
    LocalOk(s, fr, f, child, luck, before);
    LocalPin(s, fr, f, child, luck, before);
    if g == f {
      TerminalsAppend(s.log, Tagged(f, e.stages), f);
      TerminalsOfStages(f, e.stages);
    } else if g < |s.frames| {
      FrameFacts(s, g);
      DistinctRecords(s, f, g);
      var owner := if fr.pc.Start? then None else fr.record;
      OthersKeep(s.table, e.table, s.frames[g], Terminals(s.log, g), owner);
      PinStays(s.table, e.table, s.frames[g], owner);
      TerminalsBesides(s.log, f, e.stages, g);
    } else {
      LocalLinks(s, fr, f, child, luck);
      LogFacts(s);
      NewFrameOk(e.table, e.spawned.value, s.log + Tagged(f, e.stages), g);
    }
  }

  lemma FrameFacts(s: State, f: nat)
    requires Inv(s) && f < |s.frames|
    ensures WellNumbered(s.table)
    ensures FrameOk(s.table, s.frames[f], Terminals(s.log, f)) && PinOk(s.table, s.frames[f]) && LinkOk(s.frames, f)
  {
  }

  lemma LogFacts(s: State)
    requires Inv(s)
    ensures forall e :: e in s.log ==> e.frame < |s.frames|
  {
  }

  lemma DistinctRecords(s: State, f: nat, g: nat)
    requires Inv(s) && f < |s.frames| && g < |s.frames| && f != g
    ensures s.frames[f].record.Some? ==> s.frames[f].record != s.frames[g].record
  {
    if g < f && s.frames[g].record.Some? { assert s.frames[g].record != s.frames[f].record; }
  }

  /** How a step may link frames: a rollback is spawned once, awaited, and remembered. */
  ghost predicate LinksOk(s: State, fr: Frame, self: nat, child: Option<Outcome>, e: Effect) {
    && e.frame.job == fr.job
    && (fr.pc.Done? ==> e.frame == fr && e.spawned.None?)
    && (fr.pc.Await? ==>
          && e.spawned.None?
          && (e.frame.pc == fr.pc
              || (child.Some? && e.frame.pc == Done(if child.value.Succeeded? then RolledBack(fr.pc.child)
                                                    else RollbackFailed(Some(fr.pc.child))))))
    && (!fr.pc.Done? && !fr.pc.Await? ==>
          && (e.frame.pc.Await? <==> e.spawned.Some?)
          && (e.frame.pc.Await? ==> e.frame.pc == Await(|s.frames|))
          && !(e.frame.pc.Done? && e.frame.pc.outcome.RolledBack?)
          && !(e.frame.pc.Done? && e.frame.pc.outcome.RollbackFailed? && e.frame.pc.outcome.attempt.Some?))
    && (e.spawned.Some? ==> IsRollbackOf(e.spawned.value, fr, self))
  }

  lemma OpeningLinks(s: State, fr: Frame, self: nat, child: Option<Outcome>, luck: Luck)
    requires !fr.pc.Await?
    ensures LinksOk(s, fr, self, child, Opening(s, fr, luck))
  {
    hide PinOf, TriggerOf, TrimSpace;
  }

  lemma ApplyingLinks(s: State, fr: Frame, self: nat, child: Option<Outcome>, luck: Luck)
    requires !fr.pc.Await?
    ensures LinksOk(s, fr, self, child, Applying(s, fr, luck))
  {
    hide ShouldPull;
  }

  lemma FinishingLinks(s: State, fr: Frame, self: nat, child: Option<Outcome>, luck: Luck)
    requires !fr.pc.Await?
    ensures LinksOk(s, fr, self, child, Finishing(s, fr, luck))
  {
  }

  lemma RestoringLinks(s: State, fr: Frame, self: nat, child: Option<Outcome>, luck: Luck)
    ensures LinksOk(s, fr, self, child, Restoring(s, fr, self, child, luck))
  {
    hide TrimSpace;
  }

  lemma LocalLinks(s: State, fr: Frame, self: nat, child: Option<Outcome>, luck: Luck)
    ensures LinksOk(s, fr, self, child, Local(s, fr, self, child, luck))
  {
    hide Opening, Applying, Finishing, Restoring, LinksOk;
    if !fr.pc.Await? {
      OpeningLinks(s, fr, self, child, luck);
      ApplyingLinks(s, fr, self, child, luck);
      FinishingLinks(s, fr, self, child, luck);
    }
    RestoringLinks(s, fr, self, child, luck);
  }

  predicate IsRollbackOf(fr: Frame, parent: Frame, self: nat) {
    && IsNew(fr)
    && fr.job.projectId == parent.job.projectId
    && fr.job.disableRollback && fr.job.trigger == "auto-rollback" && fr.job.parent == Some(self)
  }

  lemma AdvanceLinks(s: State, f: nat, luck: Luck, g: nat)
    requires Inv(s) && f < |s.frames|
    requires g < |Step(s, Advance(f, luck)).frames|
    ensures LinkOk(Step(s, Advance(f, luck)).frames, g)
  {
    hide Inv, Local, FrameOk, PinOk, Terminals, LinkOk;
    var n, fr := Step(s, Advance(f, luck)), s.frames[f];
    LocalLinks(s, fr, f, ChildOutcome(s, fr), luck);
    FrameFacts(s, f);
    if g == f {
      OwnLink(s, f, EffectOf(s, f, luck));
    } else if g < |s.frames| {
      FrameFacts(s, g);
      OthersLink(s, f, EffectOf(s, f, luck), g);
    } else {
      NewLink(s, f, EffectOf(s, f, luck));
    }
  }

  function FramesAfter(s: State, f: nat, e: Effect): seq<Frame>
    requires f < |s.frames|
  {
    s.frames[f := e.frame] + (if e.spawned.Some? then [e.spawned.value] else [])
  }

  lemma OwnLink(s: State, f: nat, e: Effect)
    requires f < |s.frames| && LinkOk(s.frames, f) && LinksOk(s, s.frames[f], f, ChildOutcome(s, s.frames[f]), e)
    ensures LinkOk(FramesAfter(s, f, e), f)
  {
    hide IsNew;
  }

  lemma OthersLink(s: State, f: nat, e: Effect, g: nat)
    requires f < |s.frames| && g < |s.frames| && g != f && LinkOk(s.frames, f) && LinkOk(s.frames, g)
    requires LinksOk(s, s.frames[f], f, ChildOutcome(s, s.frames[f]), e)
    ensures LinkOk(FramesAfter(s, f, e), g)
  {
    hide IsNew;
  }

  lemma NewLink(s: State, f: nat, e: Effect)
    requires f < |s.frames| && LinksOk(s, s.frames[f], f, ChildOutcome(s, s.frames[f]), e) && e.spawned.Some?
    requires LinkOk(s.frames, f)
    ensures LinkOk(FramesAfter(s, f, e), |s.frames|)
  {
  }

  lemma AdvanceRecords(s: State, f: nat, luck: Luck, g: nat, h: nat)
    requires Inv(s) && f < |s.frames|
    requires g < h < |Step(s, Advance(f, luck)).frames|
    ensures var n := Step(s, Advance(f, luck)).frames; n[g].record.Some? ==> n[g].record != n[h].record
  {
    hide Inv, FrameOk, PinOk, Local, TableStep, Terminals, WellNumbered;
    FrameFacts(s, f);
    var fr, e := s.frames[f], EffectOf(s, f, luck);
    LocalOk(s, fr, f, ChildOutcome(s, fr), luck, Terminals(s.log, f));
    LocalLinks(s, fr, f, ChildOutcome(s, fr), luck);
    if h < |s.frames| {
      FrameFacts(s, g);
      FrameFacts(s, h);
      DistinctRecords(s, g, h);
      if s.frames[g].record.Some? { RecordInTable(s.table, s.frames[g], Terminals(s.log, g)); }
      if s.frames[h].record.Some? { RecordInTable(s.table, s.frames[h], Terminals(s.log, h)); }
    }
  }

  lemma AdvanceKeepsInv(s: State, f: nat, luck: Luck)
    requires Inv(s) && f < |s.frames|
    ensures Inv(Step(s, Advance(f, luck)))
  {
    var n := Step(s, Advance(f, luck));
    assert WellNumbered(n.table) && |n.frames| >= |s.frames| by {
      LocalOk(s, s.frames[f], f, ChildOutcome(s, s.frames[f]), luck, Terminals(s.log, f));
    }
    hide FrameOk, PinOk, Local, Terminals, LinkOk;
    forall g | 0 <= g < |n.frames|
      ensures FrameOk(n.table, n.frames[g], Terminals(n.log, g)) && PinOk(n.table, n.frames[g]) && LinkOk(n.frames, g)
    {
      AdvanceFrames(s, f, luck, g);
      AdvanceLinks(s, f, luck, g);
    }
    forall g, h | 0 <= g < h < |n.frames| && n.frames[g].record.Some? ensures n.frames[g].record != n.frames[h].record {
      AdvanceRecords(s, f, luck, g, h);
    }
  }

  lemma CallKeepsInv(s: State, projectId: string, project: ProjectRow, rootSet: bool, trigger: string, actor: string)
    requires Inv(s)
    ensures Inv(Step(s, Call(projectId, project, rootSet, trigger, actor)))
  {
    var n := Step(s, Call(projectId, project, rootSet, trigger, actor));
    var f := |s.frames|;
    NewFrameOk(s.table, n.frames[f], s.log, f);
    hide FrameOk, PinOk, Terminals;
    forall g | 0 <= g < |n.frames| ensures LinkOk(n.frames, g) {
      if g < f { assert LinkOk(s.frames, g); }
    }
  }

  lemma StepKeepsInv(s: State, action: Action)
    requires Inv(s)
    ensures Inv(Step(s, action))
  {
    match action
    case Call(projectId, project, rootSet, trigger, actor) => CallKeepsInv(s, projectId, project, rootSet, trigger, actor);
    case Advance(f, luck) => if f < |s.frames| { AdvanceKeepsInv(s, f, luck); }
    case Edit(_, _) =>
    case Configure(_) =>
  }

  /** A service that has just started: any history, no invocation yet. */
  ghost predicate Initial(s: State) {
    WellNumbered(s.table) && s.frames == [] && s.log == []
  }

  lemma {:induction false} RunKeepsInv(s: State, actions: seq<Action>)
    requires Inv(s)
    ensures Inv(Run(s, actions))
  {
    if actions != [] {
      RunKeepsInv(s, actions[..|actions| - 1]);
      StepKeepsInv(Run(s, actions[..|actions| - 1]), actions[|actions| - 1]);
    }
  }

  /** In every run, an invocation about to finish owns its row. */
  lemma RowIsOwned(start: State, actions: seq<Action>, f: nat)
    requires Initial(start) && f < |Run(start, actions).frames|
    requires Run(start, actions).frames[f].pc.FinishLive? || Run(start, actions).frames[f].pc.FinishFailed?
    ensures OwnsRow(Run(start, actions).table, Run(start, actions).frames[f])
  {
    RunKeepsInv(start, actions);
    hide Inv, Run;
    FrameFacts(Run(start, actions), f);
  }

  // ---- What every run guarantees ----

  /** A later table: every earlier row is there unchanged, or has left "running" once. */
  ghost predicate HistoryKept(t: Table, u: Table) {
    forall id :: id in t.rows ==>
      && id in u.rows
      && u.rows[id].projectId == t.rows[id].projectId
      && u.rows[id].imageRef == t.rows[id].imageRef
      && u.rows[id].trigger == t.rows[id].trigger
      && u.rows[id].actor == t.rows[id].actor
      && (u.rows[id] == t.rows[id] || (t.rows[id].status == Running && u.rows[id].status != Running))
  }

  lemma StepKeepsHistory(s: State, action: Action)
    requires Inv(s)
    ensures HistoryKept(s.table, Step(s, action).table)
  {
    if action.Advance? && action.frame < |s.frames| {
      var f := action.frame;
      FrameFacts(s, f);
      hide Inv, Local;
      LocalOk(s, s.frames[f], f, ChildOutcome(s, s.frames[f]), action.luck, Terminals(s.log, f));
    }
  }

  /** Whatever happens next, a row that is live or failed never changes, and a running row changes at
      most once, by becoming live or failed. */
  lemma {:induction false} RunKeepsHistory(s: State, actions: seq<Action>)
    requires Inv(s)
    ensures HistoryKept(s.table, Run(s, actions).table)
  {
    hide Inv, Step;
    if actions != [] {
      var front := actions[..|actions| - 1];
      RunKeepsHistory(s, front);
      RunKeepsInv(s, front);
      StepKeepsHistory(Run(s, front), actions[|actions| - 1]);
    }
  }

  lemma {:induction false} RunAppend(s: State, xs: seq<Action>, ys: seq<Action>)
    ensures Run(s, xs + ys) == Run(Run(s, xs), ys)
  {
    if ys == [] {
      assert xs + ys == xs;
    } else {
      assert (xs + ys)[..|xs + ys| - 1] == xs + ys[..|ys| - 1];
      RunAppend(s, xs, ys[..|ys| - 1]);
    }
  }

  /** The same between any two moments of any run. */
  lemma {:induction false} HistorySafety(start: State, before: seq<Action>, after: seq<Action>)
    requires Initial(start)
    ensures HistoryKept(Run(start, before).table, Run(start, before + after).table)
  {
    RunKeepsInv(start, before);
    RunKeepsHistory(Run(start, before), after);
    RunAppend(start, before, after);
  }

  /** The store failed this invocation before its row had its last status. */
  predicate LeavesRunning(outcome: Outcome) {
    outcome.NotStarted? || outcome.LiveUnrecorded? || outcome.FailedUnrecorded?
  }

  /** The store failed this invocation at all. */
  predicate StoreFailed(outcome: Outcome) {
    LeavesRunning(outcome) || outcome.LiveUnconfirmed? || outcome.FailedUnconfirmed?
  }

  predicate ReturnsNil(outcome: Outcome) {
    outcome.Succeeded?
  }

  /** What an invocation that has returned leaves behind: nil goes with a live row of its own; an error,
      unless it is one of the store's, goes with a failed row or with none; and unless the row was left
      running, the invocation emitted one terminal stage, the one its row says. DeployRuns tells from the
      store's answers when a row is left running, and when an error goes with a live one. */
  ghost predicate Agrees(t: Table, fr: Frame, outcome: Outcome, terminals: seq<Stage>) {
    && (ReturnsNil(outcome) ==> OwnRow(t, fr, Live))
    && (!ReturnsNil(outcome) && !StoreFailed(outcome) ==> fr.record.None? || OwnRow(t, fr, Failed))
    && (OwnRow(t, fr, Running) <==> LeavesRunning(outcome) && fr.record.Some?)
    && (!LeavesRunning(outcome) && fr.record.Some? ==>
          OwnsRow(t, fr) && terminals == [if t.rows[fr.record.value].status == Live then LiveStage else FailedStage])
    && (fr.record.None? ==> terminals == [])
    && (!outcome.Refused? && !outcome.NotStarted? ==> |terminals| == 1)
  }

  lemma OutcomeAgrees(t: Table, fr: Frame, outcome: Outcome, terminals: seq<Stage>)
    requires OutcomeOk(t, fr, outcome, terminals)
    ensures Agrees(t, fr, outcome, terminals)
  {
    hide TriggerOf;
  }

  /** So it is for every invocation that has returned, in every run. */
  lemma {:induction false} OutcomesAgree(start: State, actions: seq<Action>, f: nat)
    requires Initial(start)
    requires f < |Run(start, actions).frames| && Run(start, actions).frames[f].pc.Done?
    ensures var end := Run(start, actions);
            Agrees(end.table, end.frames[f], end.frames[f].pc.outcome, Terminals(end.log, f))
  {
    RunKeepsInv(start, actions);
    var end := Run(start, actions);
    hide Inv, Run, OutcomeOk, Terminals;
    FrameFacts(end, f);
    OutcomeAgrees(end.table, end.frames[f], end.frames[f].pc.outcome, Terminals(end.log, f));
  }

  /** In every run, no two invocations own the same row. */
  lemma RowsHaveOneOwner(start: State, actions: seq<Action>, f: nat, g: nat)
    requires Initial(start) && f != g
    requires f < |Run(start, actions).frames| && g < |Run(start, actions).frames|
    ensures var frames := Run(start, actions).frames; frames[f].record.Some? ==> frames[f].record != frames[g].record
  {
    RunKeepsInv(start, actions);
    DistinctRecords(Run(start, actions), f, g);
  }

  /** What a parent looks like from its rollback. */
  ghost predicate ParentOf(t: Table, parent: Frame, child: Frame) {
    && child.job.trigger == "auto-rollback" && child.job.disableRollback
    && parent.job.projectId == child.job.projectId
    && parent.failed == Some(HealthError) && OwnRow(t, parent, Failed)
    && exists id :: Restorable(t, parent.job.projectId, parent.record.value, id) && t.rows[id].imageDigest == parent.pin
  }

  lemma ParentFacts(s: State, f: nat)
    requires Inv(s) && f < |s.frames| && s.frames[f].job.parent.Some?
    ensures var p := s.frames[f].job.parent.value; p < f && ParentOf(s.table, s.frames[p], s.frames[f])
  {
    hide Inv, Terminals, OwnRow;
    FrameFacts(s, f);
    var p := s.frames[f].job.parent.value;
    FrameFacts(s, p);
    RestoringParent(s.table, s.frames[p], Terminals(s.log, p));
  }

  lemma RestoringParent(t: Table, fr: Frame, terminals: seq<Stage>)
    requires FrameOk(t, fr, terminals)
    requires fr.pc.Await? || (fr.pc.Done? && (fr.pc.outcome.RolledBack? || fr.pc.outcome.RollbackFailed?))
    ensures MayRollBack(fr) && OwnRow(t, fr, Failed)
  {
    hide OwnRow;
  }

  lemma OnlyRollback(s: State, f: nat, g: nat)
    requires Inv(s) && f < |s.frames| && g < |s.frames| && s.frames[f].job.parent.Some?
    ensures s.frames[g].job.parent == s.frames[f].job.parent ==> g == f
    ensures s.frames[g].job.parent != Some(f)
  {
    hide PinOk, Terminals, WellNumbered, OwnRow;
    FrameFacts(s, f);
    FrameFacts(s, g);
  }

  /** In every run, an invocation with a parent is an automatic rollback: its parent failed its health
      check and its row says so, the parent's pin is the digest of another live deploy, this is the
      parent's only rollback, and it never starts one itself. */
  lemma {:induction false} RollbackIsSound(start: State, actions: seq<Action>, f: nat)
    requires Initial(start)
    requires f < |Run(start, actions).frames| && Run(start, actions).frames[f].job.parent.Some?
    ensures var end := Run(start, actions);
            var p := end.frames[f].job.parent.value;
            && p < f && ParentOf(end.table, end.frames[p], end.frames[f])
            && (forall g :: 0 <= g < |end.frames| && end.frames[g].job.parent == Some(p) ==> g == f)
            && (forall g :: 0 <= g < |end.frames| ==> end.frames[g].job.parent != Some(f))
  {
    var end := Run(start, actions);
    RunKeepsInv(start, actions);
    ParentFacts(end, f);
    hide Inv, ParentOf, Run;
    forall g | 0 <= g < |end.frames|
      ensures end.frames[g].job.parent == end.frames[f].job.parent ==> g == f
      ensures end.frames[g].job.parent != Some(f)
    {
      OnlyRollback(end, f, g);
    }
  }

  /** How many steps an invocation has left, not counting the wait for a rollback. */
  function StepsLeft(pc: Pc): nat {
    match pc
    case Enter => 17
    case Start => 16
    case Choose => 15
    case Queue => 14
    case Pull => 13
    case Create => 12
    case Check => 11
    case Route => 10
    case Dns => 9
    case Announce => 8
    case FinishLive => 1
    case Fail(_) => 7
    case FinishFailed(_) => 6
    case Rollback => 5
    case RbRead => 4
    case RbUpdate(_) => 3
    case RbReload => 2
    case Await(_) => 1
    case Done(_) => 0
  }

  lemma OpeningProgress(s: State, fr: Frame, luck: Luck)
    requires fr.pc.Enter? || fr.pc.Start? || fr.pc.Choose? || fr.pc.Queue?
    ensures StepsLeft(Opening(s, fr, luck).frame.pc) < StepsLeft(fr.pc)
  {
    hide PinOf, TriggerOf, TrimSpace;
  }

  lemma ApplyingProgress(s: State, fr: Frame, luck: Luck)
    requires fr.pc.Pull? || fr.pc.Create? || fr.pc.Check? || fr.pc.Route? || fr.pc.Dns? || fr.pc.Announce?
    ensures StepsLeft(Applying(s, fr, luck).frame.pc) < StepsLeft(fr.pc)
  {
    hide ShouldPull;
  }

  lemma FinishingProgress(s: State, fr: Frame, luck: Luck)
    requires fr.pc.Fail? || fr.pc.FinishFailed? || fr.pc.FinishLive?
    ensures StepsLeft(Finishing(s, fr, luck).frame.pc) < StepsLeft(fr.pc)
  {
  }

  lemma RestoringProgress(s: State, fr: Frame, self: nat, child: Option<Outcome>, luck: Luck)
    requires fr.pc.Rollback? || fr.pc.RbRead? || fr.pc.RbUpdate? || fr.pc.RbReload? || (fr.pc.Await? && child.Some?)
    ensures StepsLeft(Restoring(s, fr, self, child, luck).frame.pc) < StepsLeft(fr.pc)
  {
    hide TrimSpace;
  }

  /** Every step of an invocation brings it closer to its end; only a rollback that is still being
      awaited can make it wait. */
  lemma StepMakesProgress(s: State, f: nat, luck: Luck)
    requires f < |s.frames| && !s.frames[f].pc.Done?
    requires s.frames[f].pc.Await? ==> ChildOutcome(s, s.frames[f]).Some?
    ensures StepsLeft(Step(s, Advance(f, luck)).frames[f].pc) < StepsLeft(s.frames[f].pc) <= 17
  {
    hide Opening, Applying, Finishing, Restoring;
    var fr := s.frames[f];
    if fr.pc.Enter? || fr.pc.Start? || fr.pc.Choose? || fr.pc.Queue? {
      OpeningProgress(s, fr, luck);
    } else if fr.pc.Fail? || fr.pc.FinishFailed? || fr.pc.FinishLive? {
      FinishingProgress(s, fr, luck);
    } else if fr.pc.Rollback? || fr.pc.RbRead? || fr.pc.RbUpdate? || fr.pc.RbReload? || fr.pc.Await? {
      RestoringProgress(s, fr, f, ChildOutcome(s, fr), luck);
    } else {
      ApplyingProgress(s, fr, luck);
    }
  }
}
